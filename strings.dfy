/**
 * The JavaScript string built-ins the task list relies on: `startsWith`,
 * `includes`, the blank test `trim() !== ''`, `split` on one separator
 * character and `join` with a separator string.
 */
module Strings {

  /** `s.startsWith(p)` */
  predicate StartsWith(s: string, p: string)
  {
    |p| <= |s| && s[..|p|] == p
  }

  /** `s.includes(frag)`: `frag` occurs somewhere in `s` (the empty fragment occurs everywhere). */
  predicate Contains(s: string, frag: string)
    decreases |s|
  {
    StartsWith(s, frag) || (|s| > 0 && Contains(s[1..], frag))
  }

  /** The characters `String.prototype.trim` removes: ECMAScript WhiteSpace and LineTerminator. */
  predicate IsWhitespace(c: char)
  {
    c == '\t' || c == '\n' || c == '\U{000B}' || c == '\U{000C}' || c == '\r' || c == ' '
    || c == '\U{00A0}' || c == '\U{1680}' || ('\U{2000}' <= c <= '\U{200A}')
    || c == '\U{2028}' || c == '\U{2029}' || c == '\U{202F}' || c == '\U{205F}'
    || c == '\U{3000}' || c == '\U{FEFF}'
  }

  /** `s.trim() === ''`: the string is empty or made of whitespace only. */
  predicate IsBlank(s: string)
  {
    forall i :: 0 <= i < |s| ==> IsWhitespace(s[i])
  }

  /** `s.split(sep)` for a one-character separator: never empty, "" splits to [""]. */
  function Split(s: string, sep: char): (r: seq<string>)
    ensures |r| >= 1
    ensures forall k :: 0 <= k < |r| ==> sep !in r[k]
    decreases |s|
  {
    if |s| == 0 then [""]
    else if s[0] == sep then [""] + Split(s[1..], sep)
    else
      var rest := Split(s[1..], sep);
      [[s[0]] + rest[0]] + rest[1..]
  }

  /** `parts.join(sep)` */
  function Join(parts: seq<string>, sep: string): string
    decreases |parts|
  {
    if |parts| == 0 then ""
    else if |parts| == 1 then parts[0]
    else parts[0] + sep + Join(parts[1..], sep)
  }

  /** Joining a longer list puts the separator between its head and the join of its tail. */
  lemma JoinCons(p: string, rest: seq<string>, sep: string)
    requires rest != []
    ensures Join([p] + rest, sep) == p + sep + Join(rest, sep)
  {
    assert ([p] + rest)[1..] == rest;
  }

  /** The fragment occurs in `s` starting at index `i`. */
  predicate OccursAt(s: string, frag: string, i: nat)
  {
    i + |frag| <= |s| && s[i..i + |frag|] == frag
  }

  /** `includes` as a search: the fragment occurs at some index of `s`. */
  lemma {:induction false} ContainsAt(s: string, frag: string)
    ensures Contains(s, frag) <==> exists i: nat :: OccursAt(s, frag, i)
    decreases |s|
  {
    if StartsWith(s, frag) {
      assert OccursAt(s, frag, 0);
    }
    if |s| > 0 {
      ContainsAt(s[1..], frag);
      if Contains(s[1..], frag) {
        var i: nat :| OccursAt(s[1..], frag, i);
        assert s[1..][i..i + |frag|] == s[i + 1..i + 1 + |frag|];
        assert OccursAt(s, frag, i + 1);
      }
      if exists i: nat :: OccursAt(s, frag, i) {
        var i: nat :| OccursAt(s, frag, i);
        if i > 0 {
          assert s[1..][i - 1..i - 1 + |frag|] == s[i..i + |frag|];
          assert OccursAt(s[1..], frag, i - 1);
        }
      }
    } else if exists i: nat :: OccursAt(s, frag, i) {
      var i: nat :| OccursAt(s, frag, i);
      assert |frag| == 0 && s[..0] == frag;
    }
  }

  /** A string without the separator splits to itself alone. */
  lemma {:induction false} SplitNoSeparator(s: string, sep: char)
    requires sep !in s
    ensures Split(s, sep) == [s]
    decreases |s|
  {
    if |s| > 0 {
      assert sep !in s[1..];
      SplitNoSeparator(s[1..], sep);
      assert [s[0]] + s[1..] == s;
    }
  }

  /** Splitting at the first separator: the part before it, then the split of the rest. */
  lemma {:induction false} SplitAtFirst(a: string, sep: char, b: string)
    requires sep !in a
    ensures Split(a + [sep] + b, sep) == [a] + Split(b, sep)
    decreases |a|
  {
    var s := a + [sep] + b;
    if |a| == 0 {
      assert s[0] == sep && s[1..] == b;
    } else {
      assert s[0] == a[0];
      assert s[1..] == a[1..] + [sep] + b;
      assert sep !in a[1..];
      SplitAtFirst(a[1..], sep, b);
      assert [a[0]] + a[1..] == a;
    }
  }

  /** Splitting a join gives the parts back, when no part holds the separator. */
  lemma {:induction false} SplitJoin(parts: seq<string>, sep: char)
    requires |parts| >= 1
    requires forall k :: 0 <= k < |parts| ==> sep !in parts[k]
    ensures Split(Join(parts, [sep]), sep) == parts
    decreases |parts|
  {
    if |parts| == 1 {
      SplitNoSeparator(parts[0], sep);
    } else {
      var rest := parts[1..];
      SplitJoin(rest, sep);
      assert Join(parts, [sep]) == parts[0] + [sep] + Join(rest, [sep]);
      SplitAtFirst(parts[0], sep, Join(rest, [sep]));
      assert [parts[0]] + rest == parts;
    }
  }

  /** Joining a split gives the string back: `split` followed by `join` loses nothing. */
  lemma {:induction false} JoinSplit(s: string, sep: char)
    ensures Join(Split(s, sep), [sep]) == s
    decreases |s|
  {
    if |s| > 0 {
      var rest := Split(s[1..], sep);
      JoinSplit(s[1..], sep);
      if s[0] == sep {
        JoinCons("", rest, [sep]);
        assert [sep] + s[1..] == s;
      } else if |rest| == 1 {
        assert [s[0]] + s[1..] == s;
      } else {
        JoinCons(rest[0], rest[1..], [sep]);
        assert [rest[0]] + rest[1..] == rest;
        JoinCons([s[0]] + rest[0], rest[1..], [sep]);
        assert [s[0]] + s[1..] == s;
      }
    }
  }
}
