/** Splitting a string at a separator, as Python's `str.split(sep)` does, and joining it back. */
module Text {

  function Split(s: string, sep: char): (parts: seq<string>)
    ensures |parts| >= 1
    ensures forall i :: 0 <= i < |parts| ==> sep !in parts[i]
  {
    if s == "" then [""]
    else
      var rest := Split(s[1..], sep);
      if s[0] == sep then [""] + rest else [[s[0]] + rest[0]] + rest[1..]
  }

  function Join(parts: seq<string>, sep: char): string
    requires |parts| >= 1
  {
    if |parts| == 1 then parts[0] else parts[0] + [sep] + Join(parts[1..], sep)
  }

  lemma {:induction false} JoinSplit(s: string, sep: char)
    ensures Join(Split(s, sep), sep) == s
  {
    if s != "" {
      JoinSplit(s[1..], sep);
      var rest := Split(s[1..], sep);
      if s[0] == sep {
        assert ([""] + rest)[1..] == rest;
      } else if |rest| > 1 {
        assert ([[s[0]] + rest[0]] + rest[1..])[1..] == rest[1..];
      }
    }
  }

  lemma {:induction false} SplitPrefix(a: string, rest: string, sep: char)
    requires sep !in a
    ensures Split(a + [sep] + rest, sep) == [a] + Split(rest, sep)
    ensures Split(a, sep) == [a]
  {
    if a == "" {
      assert ([sep] + rest)[1..] == rest;
      assert a + [sep] + rest == [sep] + rest;
    } else {
      SplitPrefix(a[1..], rest, sep);
      assert (a + [sep] + rest)[1..] == a[1..] + [sep] + rest;
      assert [a[0]] + a[1..] == a;
    }
  }

  /** Splitting recovers the parts exactly when none of them holds the separator. */
  lemma {:induction false} SplitJoin(parts: seq<string>, sep: char)
    requires |parts| >= 1
    ensures Split(Join(parts, sep), sep) == parts <==> forall i :: 0 <= i < |parts| ==> sep !in parts[i]
  {
    if forall i :: 0 <= i < |parts| ==> sep !in parts[i] {
      if |parts| == 1 {
        SplitPrefix(parts[0], "", sep);
      } else {
        SplitJoin(parts[1..], sep);
        SplitPrefix(parts[0], Join(parts[1..], sep), sep);
      }
    }
  }

  /** The parts of a text followed by another: the last and the first run together. */
  function Merge(a: seq<string>, b: seq<string>): (m: seq<string>)
    requires |a| >= 1 && |b| >= 1
    ensures |m| == |a| + |b| - 1
  {
    if |a| == 1 then [a[0] + b[0]] + b[1..] else [a[0]] + Merge(a[1..], b)
  }

  lemma {:induction false} MergeKeeps(a: seq<string>, b: seq<string>, i: nat)
    requires |b| >= 1 && i < |a| - 1
    ensures Merge(a, b)[i] == a[i]
  {
    if i > 0 {
      MergeKeeps(a[1..], b, i - 1);
    }
  }

  lemma MergeHead(c: char, a: seq<string>, b: seq<string>)
    requires |a| >= 1 && |b| >= 1
    ensures Merge([[c] + a[0]] + a[1..], b) == [[c] + Merge(a, b)[0]] + Merge(a, b)[1..]
  {
    var longer := [[c] + a[0]] + a[1..];
    assert longer[1..] == a[1..];
    if |a| == 1 {
      assert [c] + a[0] + b[0] == [c] + (a[0] + b[0]);
    }
  }

  /** Text appended to another lengthens its last part and adds parts, and leaves the earlier ones alone. */
  lemma {:induction false} SplitExtended(p: string, rest: string, sep: char)
    ensures Split(p + rest, sep) == Merge(Split(p, sep), Split(rest, sep))
  {
    var b := Split(rest, sep);
    if p == "" {
      assert "" + rest == rest && "" + b[0] == b[0];
      assert b == [b[0]] + b[1..];
    } else {
      SplitExtended(p[1..], rest, sep);
      assert (p + rest)[1..] == p[1..] + rest;
      var tail := Split(p[1..], sep);
      if p[0] == sep {
        assert ([""] + tail)[1..] == tail;
      } else {
        MergeHead(p[0], tail, b);
      }
    }
  }
}
