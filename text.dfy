/** Python's string joining and splitting on a one-character separator, and
    the concatenation that `+=` in a loop performs. */
module Text {

  /** The strings of `ss` one after the other, as a loop of `+=` builds them. */
  function Concat(ss: seq<string>): string
  {
    if ss == [] then "" else Concat(ss[..|ss| - 1]) + ss[|ss| - 1]
  }

  lemma {:induction false} ConcatAppend(a: seq<string>, b: seq<string>)
    ensures Concat(a + b) == Concat(a) + Concat(b)
    decreases |b|
  {
    if b != [] {
      var b' := b[..|b| - 1];
      assert (a + b)[..|a + b| - 1] == a + b';
      ConcatAppend(a, b');
    } else {
      assert a + b == a;
    }
  }

  /** Concatenation from the front: the first string, then the rest. */
  lemma ConcatCons(ss: seq<string>)
    requires ss != []
    ensures Concat(ss) == ss[0] + Concat(ss[1..])
  {
    assert ss == [ss[0]] + ss[1..];
    ConcatAppend([ss[0]], ss[1..]);
    assert [ss[0]][..0] == [];
  }

  /** Every string of `ss` followed by `sep`. */
  function Terminated(ss: seq<string>, sep: char): (r: seq<string>)
    ensures |r| == |ss|
  {
    seq(|ss|, k requires 0 <= k < |ss| => ss[k] + [sep])
  }

  /** Python's `sep.join(parts)`. */
  function Join(parts: seq<string>, sep: char): (r: string)
    ensures |parts| > 0 ==> |r| == |Concat(parts)| + |parts| - 1
  {
    if |parts| == 0 then ""
    else if |parts| == 1 then
      assert parts[..0] == [];
      parts[0]
    else
      ConcatCons(parts);
      parts[0] + [sep] + Join(parts[1..], sep)
  }

  /** Position of the first `c` in `s`, or `|s|` when there is none. */
  function IndexOf(s: string, c: char): (r: nat)
    ensures r <= |s|
    ensures r < |s| ==> s[r] == c
    ensures forall j :: 0 <= j < r ==> s[j] != c
  {
    if |s| == 0 then 0 else if s[0] == c then 0 else 1 + IndexOf(s[1..], c)
  }

  /** Python's `s.split(sep)`: the pieces between separators, never empty. */
  function Split(s: string, sep: char): (r: seq<string>)
    ensures |r| >= 1
    decreases |s|
  {
    var i := IndexOf(s, sep);
    if i == |s| then [s] else [s[..i]] + Split(s[i + 1..], sep)
  }

  /** Splitting undoes joining when no part contains the separator. */
  lemma {:induction false} SplitJoin(parts: seq<string>, sep: char)
    requires |parts| >= 1
    requires forall k :: 0 <= k < |parts| ==> sep !in parts[k]
    ensures Split(Join(parts, sep), sep) == parts
  {
    var s := Join(parts, sep);
    if |parts| == 1 {
      assert IndexOf(s, sep) == |s|;
    } else {
      var rest := Join(parts[1..], sep);
      assert s == parts[0] + [sep] + rest;
      assert s[|parts[0]|] == sep;
      assert IndexOf(s, sep) == |parts[0]|;
      assert s[..|parts[0]|] == parts[0];
      assert s[|parts[0]| + 1..] == rest;
      SplitJoin(parts[1..], sep);
      assert parts == [parts[0]] + parts[1..];
    }
  }

  /** Lines each ending in `sep` are the lines joined by `sep`, plus an empty tail. */
  lemma {:induction false} ConcatTerminated(ss: seq<string>, sep: char)
    ensures Concat(Terminated(ss, sep)) == Join(ss + [""], sep)
    decreases |ss|
  {
    if ss != [] {
      assert Terminated(ss, sep) == [ss[0] + [sep]] + Terminated(ss[1..], sep);
      ConcatAppend([ss[0] + [sep]], Terminated(ss[1..], sep));
      assert Concat([ss[0] + [sep]]) == ss[0] + [sep] by {
        assert [ss[0] + [sep]][..0] == [];
      }
      ConcatTerminated(ss[1..], sep);
      assert (ss + [""])[1..] == ss[1..] + [""];
    } else {
      assert ss + [""] == [""];
    }
  }

  /** Splitting `sep`-terminated lines gives the lines back, then one empty piece. */
  lemma SplitTerminated(ss: seq<string>, sep: char)
    requires forall k :: 0 <= k < |ss| ==> sep !in ss[k]
    ensures Split(Concat(Terminated(ss, sep)), sep) == ss + [""]
  {
    ConcatTerminated(ss, sep);
    SplitJoin(ss + [""], sep);
  }
}
