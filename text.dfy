/**
 * The Python string operations the tray relies on, over `string` (a sequence of
 * characters): `str.split` with a one-character separator and its inverse `join`,
 * `str.strip()` with Python's notion of whitespace, and `str(int)`.
 */
module Text {

  /** Python's `str.isspace()` for a single character. */
  predicate IsSpace(c: char) {
    var k := c as int;
    (9 <= k <= 13) || (28 <= k <= 32) || k == 0x85 || k == 0xA0 || k == 0x1680
    || (0x2000 <= k <= 0x200A) || k == 0x2028 || k == 0x2029 || k == 0x202F
    || k == 0x205F || k == 0x3000
  }

  /**
   * `s.split(sep)`: the fields between separators, left to right. The empty string
   * splits into one empty field, and consecutive separators give empty fields.
   */
  function SplitOn(s: string, sep: char): (parts: seq<string>)
    ensures |parts| >= 1
    ensures forall i :: 0 <= i < |parts| ==> sep !in parts[i]
    decreases |s|
  {
    if s == [] then [[]]
    else
      var rest := SplitOn(s[1..], sep);
      if s[0] == sep then [[]] + rest
      else [[s[0]] + rest[0]] + rest[1..]
  }

  /** `sep.join(parts)`. */
  function JoinWith(parts: seq<string>, sep: char): string
    decreases |parts|
  {
    if |parts| == 0 then []
    else if |parts| == 1 then parts[0]
    else parts[0] + [sep] + JoinWith(parts[1..], sep)
  }

  /** Splitting a string whose first field `p` holds no separator puts `p` in front of the first field. */
  lemma {:induction false} SplitPrefix(p: string, t: string, sep: char)
    requires sep !in p
    ensures SplitOn(p + t, sep) == [p + SplitOn(t, sep)[0]] + SplitOn(t, sep)[1..]
    decreases |p|
  {
    var rest := SplitOn(t, sep);
    if p == [] {
      assert p + t == t;
      assert [] + rest[0] == rest[0];
      assert rest == [rest[0]] + rest[1..];
    } else {
      assert (p + t)[0] == p[0];
      assert (p + t)[1..] == p[1..] + t;
      SplitPrefix(p[1..], t, sep);
      assert [p[0]] + (p[1..] + SplitOn(t, sep)[0]) == p + SplitOn(t, sep)[0];
    }
  }

  /** Joining what was split gives back the original string. */
  lemma {:induction false} JoinSplit(s: string, sep: char)
    ensures JoinWith(SplitOn(s, sep), sep) == s
    decreases |s|
  {
    if s != [] {
      var rest := SplitOn(s[1..], sep);
      JoinSplit(s[1..], sep);
      if s[0] == sep {
        assert JoinWith([[]] + rest, sep) == [] + [sep] + JoinWith(rest, sep);
      } else {
        var parts := [[s[0]] + rest[0]] + rest[1..];
        assert parts[1..] == rest[1..];
        if |rest| == 1 {
          assert JoinWith(parts, sep) == [s[0]] + rest[0];
        } else {
          assert JoinWith(rest, sep) == rest[0] + [sep] + JoinWith(rest[1..], sep);
          assert JoinWith(parts, sep) == [s[0]] + rest[0] + [sep] + JoinWith(rest[1..], sep);
        }
      }
    }
  }

  /**
   * Splitting what was joined gives back the fields, provided there is at least one
   * field and no field holds the separator.
   */
  lemma {:induction false} SplitJoin(parts: seq<string>, sep: char)
    requires |parts| >= 1
    requires forall i :: 0 <= i < |parts| ==> sep !in parts[i]
    ensures SplitOn(JoinWith(parts, sep), sep) == parts
    decreases |parts|
  {
    SplitJoinPrefix(parts[..|parts| - 1], [parts[|parts| - 1]], sep);
    assert parts[..|parts| - 1] + [parts[|parts| - 1]] == parts;
    SplitPrefix(parts[|parts| - 1], [], sep);
    assert parts[|parts| - 1] + [] == parts[|parts| - 1];
  }

  /**
   * Fields without separators that lead a join come back unchanged, in order, at the
   * front of the split, whatever the later fields hold.
   */
  lemma {:induction false} SplitJoinPrefix(ps: seq<string>, qs: seq<string>, sep: char)
    requires |qs| >= 1
    requires forall i :: 0 <= i < |ps| ==> sep !in ps[i]
    ensures SplitOn(JoinWith(ps + qs, sep), sep) == ps + SplitOn(JoinWith(qs, sep), sep)
    decreases |ps|
  {
    if ps != [] {
      var tail := JoinWith(ps[1..] + qs, sep);
      assert (ps + qs)[1..] == ps[1..] + qs;
      assert JoinWith(ps + qs, sep) == ps[0] + [sep] + tail;
      SplitConcat(ps[0], tail, sep);
      SplitOfField(ps[0], sep);
      SplitJoinPrefix(ps[1..], qs, sep);
      assert ps == [ps[0]] + ps[1..];
    } else {
      assert ps + qs == qs;
    }
  }

  /** A string without the separator splits into itself alone. */
  lemma SplitOfField(p: string, sep: char)
    requires sep !in p
    ensures SplitOn(p, sep) == [p]
  {
    SplitPrefix(p, [], sep);
    assert p + [] == p;
  }

  /** Joining two non-empty lists of fields puts one separator between the two joins. */
  lemma {:induction false} JoinAppend(ps: seq<string>, qs: seq<string>, sep: char)
    requires |ps| >= 1 && |qs| >= 1
    ensures JoinWith(ps + qs, sep) == JoinWith(ps, sep) + [sep] + JoinWith(qs, sep)
    decreases |ps|
  {
    assert (ps + qs)[0] == ps[0];
    if |ps| > 1 {
      assert (ps + qs)[1..] == ps[1..] + qs;
      JoinAppend(ps[1..], qs, sep);
    } else {
      assert (ps + qs)[1..] == qs;
    }
  }

  /** Splitting at a separator splits each side independently. */
  lemma {:induction false} SplitConcat(a: string, b: string, sep: char)
    ensures SplitOn(a + [sep] + b, sep) == SplitOn(a, sep) + SplitOn(b, sep)
    decreases |a|
  {
    if a == [] {
      assert a + [sep] + b == [sep] + b;
      assert ([sep] + b)[1..] == b;
    } else {
      assert (a + [sep] + b)[0] == a[0];
      assert (a + [sep] + b)[1..] == a[1..] + [sep] + b;
      SplitConcat(a[1..], b, sep);
    }
  }

  /** `"\n".join(lines) + "\n"`: one line per entry, each ended by a newline. */
  function Render(lines: seq<string>): string {
    JoinWith(lines, '\n') + "\n"
  }

  /**
   * A rendered text ends in a newline, and splitting it on newlines gives the lines
   * back followed by one empty field, when no line holds a newline itself.
   */
  lemma RenderSplit(lines: seq<string>)
    requires |lines| >= 1
    requires forall i :: 0 <= i < |lines| ==> '\n' !in lines[i]
    ensures |Render(lines)| >= 1 && Render(lines)[|Render(lines)| - 1] == '\n'
    ensures SplitOn(Render(lines), '\n') == lines + [""]
  {
    JoinAppend(lines, [""], '\n');
    assert Render(lines) == JoinWith(lines + [""], '\n');
    SplitJoin(lines + [""], '\n');
  }

  /**
   * Newline-free lines at the front of a rendered text come back, in order, as the
   * first lines of the split, whatever the later lines hold.
   */
  lemma RenderPrefix(ps: seq<string>, qs: seq<string>)
    requires forall i :: 0 <= i < |ps| ==> '\n' !in ps[i]
    ensures |Render(ps + qs)| >= 1 && Render(ps + qs)[|Render(ps + qs)| - 1] == '\n'
    ensures |SplitOn(Render(ps + qs), '\n')| > |ps|
    ensures SplitOn(Render(ps + qs), '\n')[..|ps|] == ps
  {
    var r := Render(ps + qs);
    assert r[|r| - 1] == '\n';
    if ps + qs != [] {
      JoinAppend(ps + qs, [""], '\n');
      assert (ps + qs) + [""] == ps + (qs + [""]);
      assert r == JoinWith(ps + (qs + [""]), '\n');
      SplitJoinPrefix(ps, qs + [""], '\n');
    } else {
      assert ps == [];
    }
  }

  /** Whether `s` begins with `prefix`. */
  predicate StartsWith(s: string, prefix: string) {
    |prefix| <= |s| && s[..|prefix|] == prefix
  }

  /**
   * A rendered text holds, as one of its lines, a line that starts with the
   * newline-free head of any entry, whatever the other entries hold.
   */
  lemma RenderKeepsHead(lines: seq<string>, i: nat, head: string)
    requires i < |lines|
    requires '\n' !in head && StartsWith(lines[i], head)
    ensures exists l :: l in SplitOn(Render(lines), '\n') && StartsWith(l, head)
  {
    var tail := lines[i..] + [""];
    var rest := JoinWith(tail[1..], '\n');
    JoinAppend([lines[i]], tail[1..], '\n');
    assert [lines[i]] + tail[1..] == tail;
    var afterHead := lines[i][|head|..] + ['\n'] + rest;
    assert JoinWith(tail, '\n') == head + afterHead;
    SplitPrefix(head, afterHead, '\n');
    var line := SplitOn(JoinWith(tail, '\n'), '\n')[0];
    assert line[..|head|] == head;
    JoinAppend(lines, [""], '\n');
    assert Render(lines) == JoinWith(lines + [""], '\n');
    if i == 0 {
      assert lines + [""] == tail;
      assert line in SplitOn(Render(lines), '\n');
    } else {
      assert lines + [""] == lines[..i] + tail;
      JoinAppend(lines[..i], tail, '\n');
      SplitConcat(JoinWith(lines[..i], '\n'), JoinWith(tail, '\n'), '\n');
      assert line in SplitOn(Render(lines), '\n');
    }
  }

  /** `s.lstrip()`: `s` without its leading whitespace. */
  function TrimLeft(s: string): (r: string)
    ensures |r| <= |s| && r == s[|s| - |r|..]
    ensures r == [] || !IsSpace(r[0])
    ensures forall i :: 0 <= i < |s| - |r| ==> IsSpace(s[i])
    decreases |s|
  {
    if s != [] && IsSpace(s[0]) then TrimLeft(s[1..]) else s
  }

  /** `s.rstrip()`: `s` without its trailing whitespace. */
  function TrimRight(s: string): (r: string)
    ensures |r| <= |s| && r == s[..|r|]
    ensures r == [] || !IsSpace(r[|r| - 1])
    ensures forall i :: |r| <= i < |s| ==> IsSpace(s[i])
    decreases |s|
  {
    if s != [] && IsSpace(s[|s| - 1]) then TrimRight(s[..|s| - 1]) else s
  }

  /** `s.strip()`. */
  function Strip(s: string): string {
    TrimRight(TrimLeft(s))
  }

  /**
   * The stripped string is empty exactly when every character is whitespace; otherwise
   * it starts with the first character that is not.
   */
  lemma StripStart(s: string)
    ensures Strip(s) == [] <==> forall i :: 0 <= i < |s| ==> IsSpace(s[i])
    ensures Strip(s) != [] ==>
      exists k :: 0 <= k < |s| && Strip(s)[0] == s[k] && !IsSpace(s[k])
        && forall j :: 0 <= j < k ==> IsSpace(s[j])
  {
    var l := TrimLeft(s);
    var k := |s| - |l|;
    if l == [] {
      assert forall i :: 0 <= i < |s| ==> IsSpace(s[i]);
    } else {
      assert l[0] == s[k] && !IsSpace(s[k]);
      assert |TrimRight(l)| >= 1;
      assert Strip(s)[0] == s[k];
    }
  }

  /** The decimal digit for `d`. */
  function DigitChar(d: nat): char
    requires d < 10
  {
    ('0' as int + d) as char
  }

  /** `str(n)` for a natural number: its decimal digits, without leading zeros. */
  function NatToDecimal(n: nat): (r: string)
    ensures |r| >= 1
    ensures forall i :: 0 <= i < |r| ==> '0' <= r[i] <= '9'
    ensures r[0] == '0' <==> n == 0
    ensures n == 0 ==> r == "0"
    decreases n
  {
    if n < 10 then [DigitChar(n)] else NatToDecimal(n / 10) + [DigitChar(n % 10)]
  }

  /** `str(i)` for any integer: a minus sign before the digits of a negative number. */
  function IntToDecimal(i: int): (r: string)
    ensures '\n' !in r
  {
    if i < 0 then "-" + NatToDecimal(-i) else NatToDecimal(i)
  }

  /** The value of a string of decimal digits. */
  function DecimalValue(s: string): nat
    requires forall i :: 0 <= i < |s| ==> '0' <= s[i] <= '9'
    decreases |s|
  {
    if s == [] then 0 else DecimalValue(s[..|s| - 1]) * 10 + (s[|s| - 1] as int - '0' as int)
  }

  /** Decimal digits, optionally after a leading minus sign. */
  predicate IsNumeral(s: string) {
    forall i :: 0 <= i < |s| ==> '0' <= s[i] <= '9' || (i == 0 && s[i] == '-')
  }

  /** The value of an optionally signed decimal numeral (Python's `int(s)` on such a string). */
  function IntValue(s: string): int
    requires IsNumeral(s)
  {
    if s != [] && s[0] == '-' then -(DecimalValue(s[1..]) as int) else DecimalValue(s) as int
  }

  /** Reading back the digits of a natural number gives the number. */
  lemma {:induction false} DecimalRoundTrip(n: nat)
    ensures DecimalValue(NatToDecimal(n)) == n
    decreases n
  {
    var r := NatToDecimal(n);
    if n >= 10 {
      DecimalRoundTrip(n / 10);
      assert r[..|r| - 1] == NatToDecimal(n / 10);
      assert r[|r| - 1] == DigitChar(n % 10);
      assert DigitChar(n % 10) as int - '0' as int == n % 10;
      assert (n / 10) * 10 + n % 10 == n;
    }
  }

  /** `int(str(i)) == i`. */
  lemma IntRoundTrip(i: int)
    ensures IsNumeral(IntToDecimal(i))
    ensures IntValue(IntToDecimal(i)) == i
  {
    if i < 0 {
      var n: nat := -i;
      NegativeRoundTrip(n);
      assert IntToDecimal(i) == "-" + NatToDecimal(n);
    } else {
      var n: nat := i;
      NaturalRoundTrip(n);
      assert IntToDecimal(i) == NatToDecimal(n);
    }
  }

  /** The numeral of a natural number is plain digits that read back as the number. */
  lemma NaturalRoundTrip(n: nat)
    ensures IsNumeral(NatToDecimal(n))
    ensures IntValue(NatToDecimal(n)) == n
  {
    var d := NatToDecimal(n);
    DecimalRoundTrip(n);
    assert d[0] != '-';
  }

  /** The numeral of a negative number is a minus sign before digits that read back as its magnitude. */
  lemma NegativeRoundTrip(n: nat)
    requires n > 0
    ensures IsNumeral("-" + NatToDecimal(n))
    ensures IntValue("-" + NatToDecimal(n)) == -(n as int)
  {
    var d := NatToDecimal(n);
    var r := "-" + d;
    assert r[0] == '-' && r[1..] == d;
    assert forall k :: 1 <= k < |r| ==> r[k] == d[k - 1];
    DecimalRoundTrip(n);
  }
}
