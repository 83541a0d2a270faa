/** The fixed job tables and colours of the FFXIV job colouring script, the
    linear membership test it uses, and the first-match rule that decides the
    background of one cell. */
module Jobs {

  datatype Option<T> = None | Some(value: T)

  /** A cell background: one of the script's hex colours, or none at all (the
      slot of a freshly allocated row that no branch assigned, which the host
      reads as "clear the background"). */
  datatype Background = NoColor | Colored(hex: string)

  /** The three categories of job, in the order the script tests them. */
  datatype Role = Dps | Healer | Tank

  /** All DPS jobs as of Stormblood. */
  const DPS_JOBS: seq<string> :=
    ["Bard", "Black Mage", "Dragoon", "Machinist", "Monk", "Ninja", "Red Mage", "Samurai", "Summoner"]
  const DPS_COLOR: string := "#e74c3c"

  /** All healer jobs as of Stormblood (the script names this table HEALER_JOS). */
  const HEALER_JOBS: seq<string> := ["Astrologian", "Scholar", "White Mage"]
  const HEALER_COLOR: string := "#2ecc71"

  /** All tank jobs as of Stormblood. */
  const TANK_JOBS: seq<string> := ["Dark Knight", "Paladin", "Warrior"]
  const TANK_COLOR: string := "#3498db"

  /** The font colour written over the whole processed range. */
  const FONT_COLOR: string := "white"

  /** The order in which the script consults the tables. */
  const PRIORITY: seq<Role> := [Dps, Healer, Tank]

  function JobsOf(r: Role): seq<string>
  {
    match r
    case Dps => DPS_JOBS
    case Healer => HEALER_JOBS
    case Tank => TANK_JOBS
  }

  function ColorOf(r: Role): string
  {
    match r
    case Dps => DPS_COLOR
    case Healer => HEALER_COLOR
    case Tank => TANK_COLOR
  }

  /** `_arrayContains`: scan `arr` from the front and stop at the first element
      equal to `e` (strict equality: no trimming, no case folding). */
  method ArrayContains<T(==)>(arr: seq<T>, e: T) returns (found: bool)
    ensures found <==> exists i :: 0 <= i < |arr| && arr[i] == e
    ensures |arr| == 0 ==> !found
  {
    for i := 0 to |arr|
      invariant forall k :: 0 <= k < i ==> arr[k] != e
    {
      if arr[i] == e {
        return true;
      }
    }
    return false;
  }

  /** The background `_formatJobsRange` computes for a cell holding `v`: the
      DPS colour if `v` is a DPS job, else the healer colour if it is a healer
      job, else the tank colour if it is a tank job, else none. */
  function CellColor(v: string): Background
  {
    if v in DPS_JOBS then Colored(DPS_COLOR)
    else if v in HEALER_JOBS then Colored(HEALER_COLOR)
    else if v in TANK_JOBS then Colored(TANK_COLOR)
    else NoColor
  }

  /** The background a classification result stands for. */
  function Paint(c: Option<Role>): Background
  {
    match c
    case Some(r) => Colored(ColorOf(r))
    case None => NoColor
  }

  /** The first role of `order` whose table lists `v`: the same rule as
      `CellColor`, but for an arbitrary order of the tables. */
  function FirstMatch(v: string, order: seq<Role>): Option<Role>
  {
    if order == [] then None
    else if v in JobsOf(order[0]) then Some(order[0])
    else FirstMatch(v, order[1..])
  }

  /** The three tables share no job. */
  lemma TablesDisjoint(v: string, r1: Role, r2: Role)
    requires v in JobsOf(r1) && v in JobsOf(r2)
    ensures r1 == r2
  {
  }

  /** The three colours are distinct from one another. */
  lemma ColorsDistinct(r1: Role, r2: Role)
    requires ColorOf(r1) == ColorOf(r2)
    ensures r1 == r2
  {
  }

  /** A cell is given the colour of role `r` exactly when `r`'s table lists
      its value, and is left uncoloured exactly when no table lists it. */
  lemma CellColorCharacterised(v: string, r: Role)
    ensures CellColor(v) == Colored(ColorOf(r)) <==> v in JobsOf(r)
    ensures CellColor(v) == NoColor <==> (forall q: Role :: v !in JobsOf(q))
  {
    if CellColor(v) == NoColor {
      forall q: Role ensures v !in JobsOf(q) {
        assert q == Dps || q == Healer || q == Tank;
      }
    } else {
      assert v in JobsOf(Dps) || v in JobsOf(Healer) || v in JobsOf(Tank);
    }
  }

  /** `CellColor` is the first-match rule over `PRIORITY`. */
  lemma CellColorIsFirstMatch(v: string)
    ensures CellColor(v) == Paint(FirstMatch(v, PRIORITY))
  {
    assert PRIORITY[1..] == [Healer, Tank];
    assert PRIORITY[1..][1..] == [Tank];
    assert FirstMatch(v, [Tank]) == if v in TANK_JOBS then Some(Tank) else FirstMatch(v, []);
  }

  /** A listed job is found first at its own role by any order of the tables
      that mentions that role. */
  lemma {:induction false} FirstMatchFindsOwnRole(v: string, order: seq<Role>, r: Role)
    requires v in JobsOf(r) && r in order
    ensures FirstMatch(v, order) == Some(r)
  {
    if v in JobsOf(order[0]) {
      TablesDisjoint(v, r, order[0]);
    } else {
      assert order[0] != r;
      assert r in order[1..] by {
        var k :| 0 <= k < |order| && order[k] == r;
        assert order[1..][k - 1] == r;
      }
      FirstMatchFindsOwnRole(v, order[1..], r);
    }
  }

  /** A value no table lists matches under no order. */
  lemma {:induction false} FirstMatchUnlisted(v: string, order: seq<Role>)
    requires forall q: Role :: v !in JobsOf(q)
    ensures FirstMatch(v, order) == None
  {
    if order != [] {
      FirstMatchUnlisted(v, order[1..]);
    }
  }

  /** Because the tables are disjoint, the order in which they are consulted
      never changes a cell's colour, as long as every table is consulted. */
  lemma OrderIrrelevant(v: string, order: seq<Role>)
    requires Dps in order && Healer in order && Tank in order
    ensures Paint(FirstMatch(v, order)) == CellColor(v)
  {
    if v in DPS_JOBS {
      FirstMatchFindsOwnRole(v, order, Dps);
    } else if v in HEALER_JOBS {
      FirstMatchFindsOwnRole(v, order, Healer);
    } else if v in TANK_JOBS {
      FirstMatchFindsOwnRole(v, order, Tank);
    } else {
      FirstMatchUnlisted(v, order);
    }
  }

  /** Single cells: the jobs of the example row, other listed jobs, and
      exact, case-sensitive matching. */
  lemma CellColorExamples()
    ensures CellColor("Ninja") == Colored(DPS_COLOR)
    ensures CellColor("Warrior") == Colored(TANK_COLOR)
    ensures CellColor("Red Mage") == Colored(DPS_COLOR)
    ensures CellColor("Astrologian") == Colored(HEALER_COLOR)
    ensures CellColor("Machinist") == Colored(DPS_COLOR)
    ensures CellColor("") == NoColor
    ensures CellColor("Unknown Job") == NoColor
    ensures CellColor("ninja") == NoColor
    ensures CellColor("Ninja ") == NoColor
  {
  }
}
