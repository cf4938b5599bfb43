/**
 * The Bridges submenu: `set_bridge` turns a menu title into the configuration's
 * bridge value, and `_set_bridge_checks` ticks the item whose title matches it.
 */
module BridgeMenu {

  /** The titles of the four items of the Bridges submenu, in menu order. */
  const BRIDGE_TITLES: seq<string> := ["obfs4", "Snowflake", "meek-azure", "None"]

  /** The bridge values those titles stand for. */
  const BRIDGE_VALUES: seq<string> := ["obfs4", "snowflake", "meek-azure", "none"]

  /** Python's `lower()` on one character, for ASCII letters. */
  function LowerChar(c: char): char {
    if 'A' <= c <= 'Z' then (c as int + 32) as char else c
  }

  /** `s.lower()` for ASCII text. */
  function Lower(s: string): (r: string)
    ensures |r| == |s|
    ensures forall i :: 0 <= i < |r| ==> !('A' <= r[i] <= 'Z')
    ensures forall i :: 0 <= i < |s| && 'A' <= s[i] <= 'Z' ==> r[i] as int == s[i] as int + 32
    ensures forall i :: 0 <= i < |s| && !('A' <= s[i] <= 'Z') ==> r[i] == s[i]
  {
    seq(|s|, i requires 0 <= i < |s| => LowerChar(s[i]))
  }

  /** `s.replace(" ", "")`: `s` with every space removed and the rest kept in order. */
  function WithoutSpaces(s: string): (r: string)
    ensures ' ' !in r
    ensures |r| <= |s|
    ensures forall c :: c in r <==> c in s && c != ' '
    decreases |s|
  {
    if s == [] then []
    else if s[0] == ' ' then WithoutSpaces(s[1..])
    else [s[0]] + WithoutSpaces(s[1..])
  }

  /** Removing spaces from a concatenation removes them from each part, keeping the parts in order. */
  lemma {:induction false} WithoutSpacesAppend(a: string, b: string)
    ensures WithoutSpaces(a + b) == WithoutSpaces(a) + WithoutSpaces(b)
    decreases |a|
  {
    if a == [] {
      assert a + b == b;
    } else {
      assert (a + b)[0] == a[0];
      assert (a + b)[1..] == a[1..] + b;
      WithoutSpacesAppend(a[1..], b);
      if a[0] != ' ' {
        assert [a[0]] + (WithoutSpaces(a[1..]) + WithoutSpaces(b))
          == ([a[0]] + WithoutSpaces(a[1..])) + WithoutSpaces(b);
      }
    }
  }

  /** `title.lower().replace(" ", "")`: the bridge value a menu title stands for. */
  function Normalise(title: string): (r: string)
    ensures ' ' !in r && |r| <= |title|
  {
    WithoutSpaces(Lower(title))
  }

  /** Text without upper-case letters is unchanged by lower-casing. */
  lemma LowerOfLower(s: string)
    requires forall i :: 0 <= i < |s| ==> !('A' <= s[i] <= 'Z')
    ensures Lower(s) == s
  {
  }

  /** Text without spaces is unchanged by removing them. */
  lemma {:induction false} WithoutSpacesOfSpaceless(s: string)
    requires ' ' !in s
    ensures WithoutSpaces(s) == s
    decreases |s|
  {
    if s != [] {
      assert s[0] != ' ';
      assert ' ' !in s[1..];
      WithoutSpacesOfSpaceless(s[1..]);
    }
  }

  /** Normalising twice is normalising once. */
  lemma NormaliseIdempotent(title: string)
    ensures Normalise(Normalise(title)) == Normalise(title)
  {
    var n := Normalise(title);
    forall i | 0 <= i < |n| ensures !('A' <= n[i] <= 'Z') {
      assert n[i] in n;
      assert n[i] in Lower(title);
    }
    LowerOfLower(n);
    WithoutSpacesOfSpaceless(n);
  }

  /** A title normalises to `value` when lower-casing it gives `value` and `value` has no space. */
  lemma NormalisesTo(title: string, value: string)
    requires |title| == |value| && ' ' !in value
    requires forall i :: 0 <= i < |title| ==> LowerChar(title[i]) == value[i]
    ensures Normalise(title) == value
  {
    assert Lower(title) == value;
    WithoutSpacesOfSpaceless(value);
  }

  /** The four titles normalise to the four bridge values, in menu order. */
  lemma TitlesNormalise()
    ensures forall i :: 0 <= i < 4 ==> Normalise(BRIDGE_TITLES[i]) == BRIDGE_VALUES[i]
  {
    forall i | 0 <= i < 4 ensures Normalise(BRIDGE_TITLES[i]) == BRIDGE_VALUES[i] {
      if i == 0 {
        Obfs4Title();
      } else if i == 1 {
        SnowflakeTitle();
      } else if i == 2 {
        MeekTitle();
      } else {
        NoneTitle();
      }
    }
  }

  /** The four bridge values differ, already in length. */
  lemma BridgeValuesDistinct()
    ensures forall i, j :: 0 <= i < j < 4 ==> BRIDGE_VALUES[i] != BRIDGE_VALUES[j]
  {
    assert |BRIDGE_VALUES[0]| == 5 && |BRIDGE_VALUES[1]| == 9;
    assert |BRIDGE_VALUES[2]| == 10 && |BRIDGE_VALUES[3]| == 4;
  }

  /** The item "obfs4" stands for its own lower-case name. */
  lemma Obfs4Title()
    ensures Normalise("obfs4") == "obfs4"
  {
    NormalisesTo("obfs4", "obfs4");
  }

  /** The item "Snowflake" stands for its own lower-case name. */
  lemma SnowflakeTitle()
    ensures Normalise("Snowflake") == "snowflake"
  {
    assert LowerChar('S') == 's';
    NormalisesTo("Snowflake", "snowflake");
  }

  /** The item "meek-azure" stands for its own lower-case name. */
  lemma MeekTitle()
    ensures Normalise("meek-azure") == "meek-azure"
  {
    NormalisesTo("meek-azure", "meek-azure");
  }

  /** The item "None" stands for its own lower-case name. */
  lemma NoneTitle()
    ensures Normalise("None") == "none"
  {
    assert LowerChar('N') == 'n';
    NormalisesTo("None", "none");
  }

  /** The check state of each Bridges item when the current bridge is `current`. */
  function CheckStates(current: string): map<string, bool> {
    map t | t in BRIDGE_TITLES :: Normalise(t) == current
  }

  /**
   * When `current` is one of the four bridge values, exactly one item is checked: the
   * one whose title normalises to it.
   */
  lemma ExactlyOneChecked(current: string)
    requires current in BRIDGE_VALUES
    ensures exists t :: t in CheckStates(current) && CheckStates(current)[t]
    ensures forall t, u ::
      (t in CheckStates(current) && CheckStates(current)[t]
       && u in CheckStates(current) && CheckStates(current)[u]) ==> t == u
  {
    TitlesNormalise();
    BridgeValuesDistinct();
    var k :| 0 <= k < 4 && BRIDGE_VALUES[k] == current;
    assert BRIDGE_TITLES[k] in CheckStates(current);
    forall t, u | t in CheckStates(current) && CheckStates(current)[t]
      && u in CheckStates(current) && CheckStates(current)[u]
      ensures t == u
    {
      var i :| 0 <= i < 4 && BRIDGE_TITLES[i] == t;
      var j :| 0 <= j < 4 && BRIDGE_TITLES[j] == u;
      assert BRIDGE_VALUES[i] == current == BRIDGE_VALUES[j];
    }
  }

  /** Any other bridge value (an unknown string in the configuration) checks no item. */
  lemma NothingCheckedForOtherValues(current: string)
    requires current !in BRIDGE_VALUES
    ensures forall t :: t in CheckStates(current) ==> !CheckStates(current)[t]
  {
    TitlesNormalise();
    forall t | t in CheckStates(current) ensures !CheckStates(current)[t] {
      var i :| 0 <= i < 4 && BRIDGE_TITLES[i] == t;
      assert Normalise(t) == BRIDGE_VALUES[i];
    }
  }
}
