/**
 * The string operations the gateway uses: `split`, `join`, `startsWith`
 * and "the text after the last dot" of a file name.
 */
module Text {

  function Last<T>(s: seq<T>): T
    requires |s| > 0
  {
    s[|s| - 1]
  }

  /** JavaScript's `s.startsWith(prefix)`. */
  predicate StartsWith(s: string, prefix: string)
  {
    |prefix| <= |s| && s[..|prefix|] == prefix
  }

  /** A prefix of a string stays a prefix when more text is appended. */
  lemma StartsWithAppend(s: string, prefix: string, more: string)
    requires StartsWith(s, prefix)
    ensures StartsWith(s + more, prefix)
  {
    assert (s + more)[..|prefix|] == s[..|prefix|];
  }

  /**
   * JavaScript's `s.split(c)` for a one-character separator: the pieces
   * between the occurrences of `c`. There is always at least one piece and
   * no piece holds the separator.
   */
  function Split(s: string, c: char): (parts: seq<string>)
    ensures |parts| >= 1
    ensures forall i :: 0 <= i < |parts| ==> c !in parts[i]
    decreases |s|
  {
    if |s| == 0 then [""]
    else
      var rest := Split(s[1..], c);
      if s[0] == c then [""] + rest
      else [[s[0]] + rest[0]] + rest[1..]
  }

  /** JavaScript's `parts.join(c)`. */
  function JoinWith(parts: seq<string>, c: char): string
    requires |parts| >= 1
  {
    if |parts| == 1 then parts[0] else parts[0] + [c] + JoinWith(parts[1..], c)
  }

  /** Splitting and joining again gives back the original string. */
  lemma {:induction false} JoinSplit(s: string, c: char)
    ensures JoinWith(Split(s, c), c) == s
    decreases |s|
  {
    if |s| > 0 {
      JoinSplit(s[1..], c);
      var rest := Split(s[1..], c);
      var parts := Split(s, c);
      if s[0] == c {
        assert parts == [""] + rest;
        assert parts[1..] == rest;
      } else {
        assert parts == [[s[0]] + rest[0]] + rest[1..];
        if |rest| > 1 {
          assert parts[1..] == rest[1..];
        }
      }
      assert s == [s[0]] + s[1..];
    }
  }

  /** A string without the separator is a single piece. */
  lemma {:induction false} SplitWithoutSeparator(s: string, c: char)
    requires c !in s
    ensures Split(s, c) == [s]
    decreases |s|
  {
    if |s| > 0 {
      SplitWithoutSeparator(s[1..], c);
      assert [s[0]] + s[1..] == s;
    }
  }

  /** The first occurrence of the separator ends the first piece. */
  lemma {:induction false} SplitAtFirst(x: string, c: char, y: string)
    requires c !in x
    ensures Split(x + [c] + y, c) == [x] + Split(y, c)
    decreases |x|
  {
    if |x| == 0 {
      assert x + [c] + y == [c] + y;
      assert ([c] + y)[1..] == y;
    } else {
      SplitAtFirst(x[1..], c, y);
      var s := x + [c] + y;
      assert s[0] == x[0];
      assert s[1..] == x[1..] + [c] + y;
      assert [x[0]] + x[1..] == x;
    }
  }

  /** The last piece of a string is what follows its last separator. */
  lemma {:induction false} SplitLastAfterSeparator(x: string, c: char, y: string)
    requires c !in y
    ensures |Split(x + [c] + y, c)| >= 2
    ensures Last(Split(x + [c] + y, c)) == y
    decreases |x|
  {
    var s := x + [c] + y;
    if |x| == 0 {
      assert s == [c] + y;
      assert s[1..] == y;
      SplitWithoutSeparator(y, c);
    } else {
      SplitLastAfterSeparator(x[1..], c, y);
      assert s[0] == x[0];
      assert s[1..] == x[1..] + [c] + y;
    }
  }

  /** A joined string ends with its last piece, preceded by the separator. */
  lemma {:induction false} JoinWithLast(parts: seq<string>, c: char)
    requires |parts| >= 1
    ensures |parts| == 1 ==> JoinWith(parts, c) == parts[0]
    ensures |parts| > 1 ==> JoinWith(parts, c) == JoinWith(parts[..|parts| - 1], c) + [c] + Last(parts)
    decreases |parts|
  {
    if |parts| > 2 {
      JoinWithLast(parts[1..], c);
      assert parts[1..][..|parts| - 2] == parts[..|parts| - 1][1..];
    } else if |parts| == 2 {
      assert parts[..1] == [parts[0]];
    }
  }

  /**
   * `s.split('.')[s.split('.').length - 1]`: the text after the last dot,
   * or the whole string when it has no dot.
   */
  function AfterLastDot(s: string): (ext: string)
    ensures '.' !in ext
  {
    Last(Split(s, '.'))
  }

  /**
   * What `AfterLastDot` means: the result is a suffix of `s`, it is all of
   * `s` exactly when `s` has no dot, and otherwise a dot precedes it.
   */
  lemma AfterLastDotIsSuffix(s: string)
    ensures |AfterLastDot(s)| <= |s|
    ensures s[|s| - |AfterLastDot(s)|..] == AfterLastDot(s)
    ensures '.' in s <==> |AfterLastDot(s)| < |s|
    ensures |AfterLastDot(s)| < |s| ==> s[|s| - |AfterLastDot(s)| - 1] == '.'
  {
    var parts := Split(s, '.');
    JoinSplit(s, '.');
    JoinWithLast(parts, '.');
    var ext := Last(parts);
    if |parts| > 1 {
      var front := JoinWith(parts[..|parts| - 1], '.');
      assert s == front + ['.'] + ext;
      assert s[|front|] == '.';
    }
  }

  /** Appending `"." + ext` to any name makes a dot-free `ext` its extension. */
  lemma AfterLastDotOfAppended(name: string, ext: string)
    ensures '.' !in ext ==> AfterLastDot(name + "." + ext) == ext
  {
    if '.' !in ext {
      assert name + "." + ext == name + ['.'] + ext;
      SplitLastAfterSeparator(name, '.', ext);
    }
  }
}
