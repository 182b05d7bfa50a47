/**
 * The JavaScript string operations the application relies on, restricted to ASCII:
 * `trim`, `toLowerCase`, `startsWith`, `includes`, `split` on single characters,
 * `join`, `slice(0, n)` and character-class `replace(..., '')`.
 */
module Text {
  import opened Wrappers

  /** The ASCII characters that `trim` and the regular-expression class `\s` treat as white space. */
  predicate IsSpace(c: char) {
    c == ' ' || c == '\t' || c == '\n' || c == '\r' || c as int == 0x0B || c as int == 0x0C
  }

  predicate AllSpace(s: string) {
    forall i :: 0 <= i < |s| ==> IsSpace(s[i])
  }

  /** JavaScript truthiness of a value that is a string or `undefined`: present and non-empty. */
  predicate Truthy(o: Option<string>) {
    o.Some? && o.value != ""
  }

  /** `s` without its leading white space. */
  function TrimStart(s: string): (r: string)
    ensures |r| <= |s| && r == s[|s| - |r|..]
    ensures AllSpace(s[..|s| - |r|])
    ensures r == [] || !IsSpace(r[0])
  {
    if |s| > 0 && IsSpace(s[0]) then
      var r := TrimStart(s[1..]);
      assert s[..|s| - |r|] == [s[0]] + s[1..][..|s| - 1 - |r|];
      r
    else s
  }

  /** `s` without its trailing white space. */
  function TrimEnd(s: string): (r: string)
    ensures |r| <= |s| && r == s[..|r|]
    ensures AllSpace(s[|r|..])
    ensures r == [] || !IsSpace(r[|r| - 1])
  {
    if |s| > 0 && IsSpace(s[|s| - 1]) then
      var r := TrimEnd(s[..|s| - 1]);
      assert s[|r|..] == s[..|s| - 1][|r|..] + [s[|s| - 1]];
      r
    else s
  }

  /** `String.prototype.trim`: the longest infix of `s` that neither starts nor ends with white space. */
  function Trim(s: string): (r: string)
    ensures r == [] || (!IsSpace(r[0]) && !IsSpace(r[|r| - 1]))
    ensures |r| <= |s|
  {
    TrimEnd(TrimStart(s))
  }

  /** The number of leading white-space characters `Trim` drops. */
  function TrimOffset(s: string): nat
    ensures TrimOffset(s) <= |s|
  {
    |s| - |TrimStart(s)|
  }

  /** `Trim(s)` is the infix of `s` that starts at `TrimOffset(s)`, and only white space lies outside it. */
  lemma TrimIsInfix(s: string)
    ensures TrimOffset(s) + |Trim(s)| <= |s|
    ensures Trim(s) == s[TrimOffset(s)..TrimOffset(s) + |Trim(s)|]
    ensures AllSpace(s[..TrimOffset(s)]) && AllSpace(s[TrimOffset(s) + |Trim(s)|..])
  {
    var t := TrimStart(s);
    var o := TrimOffset(s);
    var r := TrimEnd(t);
    assert t == s[o..];
    assert s[o + |r|..] == t[|r|..];
  }

  /** A string is blank (`s.trim().length === 0`) exactly when it is all white space. */
  lemma {:induction false} BlankIffAllSpace(s: string)
    ensures Trim(s) == [] <==> AllSpace(s)
  {
    TrimIsInfix(s);
  }

  /** The value is present and holds a character other than white space. */
  predicate Filled(field: Option<string>) {
    field.Some? && !AllSpace(field.value)
  }

  /** `Filled` is exactly the truthiness of `field?.trim()`. */
  lemma FilledIff(field: Option<string>)
    ensures Filled(field) <==> field.Some? && Trim(field.value) != []
  {
    if field.Some? { BlankIffAllSpace(field.value); }
  }

  /** Trimming a string that has no white space at either end changes nothing. */
  lemma TrimOfTrimmed(s: string)
    requires s == [] || (!IsSpace(s[0]) && !IsSpace(s[|s| - 1]))
    ensures Trim(s) == s
  {
  }

  /** ASCII `toLowerCase` of one character. */
  function LowerChar(c: char): (r: char)
    ensures 'A' <= c <= 'Z' ==> r as int == c as int + 32
    ensures !('A' <= c <= 'Z') ==> r == c
  {
    if 'A' <= c <= 'Z' then (c as int + 32) as char else c
  }

  /** ASCII `toLowerCase`. */
  function Lower(s: string): (r: string)
    ensures |r| == |s|
    ensures forall i :: 0 <= i < |s| ==> r[i] == LowerChar(s[i])
  {
    seq(|s|, i requires 0 <= i < |s| => LowerChar(s[i]))
  }

  lemma LowerIdempotent(s: string)
    ensures Lower(Lower(s)) == Lower(s)
  {
  }

  lemma LowerConcat(a: string, b: string)
    ensures Lower(a + b) == Lower(a) + Lower(b)
  {
  }

  /** `s.startsWith(p)`. */
  predicate StartsWith(s: string, p: string) {
    |p| <= |s| && s[..|p|] == p
  }

  /** `p` occurs in `s` at offset `i`. */
  ghost predicate OccursAt(s: string, p: string, i: int) {
    0 <= i && i + |p| <= |s| && s[i..i + |p|] == p
  }

  /** `s.includes(p)`, by scanning the offsets from left to right. */
  function Contains(s: string, p: string): bool
    decreases |s|
  {
    if StartsWith(s, p) then true
    else if |s| == 0 then false
    else Contains(s[1..], p)
  }

  /** The scan finds `p` exactly when it occurs at some offset of `s`. */
  lemma {:induction false} ContainsIff(s: string, p: string)
    ensures Contains(s, p) <==> exists i :: OccursAt(s, p, i)
    decreases |s|
  {
    if StartsWith(s, p) {
      assert OccursAt(s, p, 0);
    } else if |s| == 0 {
    } else {
      ContainsIff(s[1..], p);
      if Contains(s[1..], p) {
        var i :| OccursAt(s[1..], p, i);
        assert s[i + 1..i + 1 + |p|] == s[1..][i..i + |p|];
        assert OccursAt(s, p, i + 1);
      }
      if exists i :: OccursAt(s, p, i) {
        var i :| OccursAt(s, p, i);
        assert s[1..][i - 1..i - 1 + |p|] == s[i..i + |p|];
        assert OccursAt(s[1..], p, i - 1);
      }
    }
  }

  /** An occurrence in `s` is also an occurrence in every string that has `s` as an infix. */
  lemma ContainsInContext(a: string, s: string, b: string, p: string)
    requires Contains(s, p)
    ensures Contains(a + s + b, p)
  {
    ContainsIff(s, p);
    var i :| OccursAt(s, p, i);
    var t := a + s + b;
    assert t[|a| + i..|a| + i + |p|] == s[i..i + |p|];
    assert OccursAt(t, p, |a| + i);
    ContainsIff(t, p);
  }

  /** No character of `s` belongs to `seps`. */
  predicate NoneIn(s: string, seps: set<char>) {
    forall k :: 0 <= k < |s| ==> s[k] !in seps
  }

  /**
   * `s.split(c)`, generalised to a set of one-character separators as in `s.split(/[,\n]/)`:
   * the maximal separator-free pieces, in order; there is always at least one piece.
   */
  function Split(s: string, seps: set<char>): (r: seq<string>)
    ensures |r| >= 1
    ensures forall i :: 0 <= i < |r| ==> NoneIn(r[i], seps)
    decreases |s|
  {
    if |s| == 0 then [""]
    else if s[0] in seps then [""] + Split(s[1..], seps)
    else
      var rest := Split(s[1..], seps);
      [[s[0]] + rest[0]] + rest[1..]
  }

  /** `parts.join(sep)`. */
  function Join(parts: seq<string>, sep: string): string
    decreases |parts|
  {
    if |parts| == 0 then ""
    else if |parts| == 1 then parts[0]
    else parts[0] + sep + Join(parts[1..], sep)
  }

  /** Splitting on one character and joining with it gives back the original string. */
  lemma {:induction false} JoinSplit(s: string, c: char)
    ensures Join(Split(s, {c}), [c]) == s
    decreases |s|
  {
    if |s| == 0 {
    } else {
      var rest := Split(s[1..], {c});
      JoinSplit(s[1..], c);
      if s[0] == c {
        assert Split(s, {c}) == [""] + rest;
        assert ([""] + rest)[1..] == rest;
        assert s == [c] + s[1..];
      } else {
        var parts := Split(s, {c});
        assert parts == [[s[0]] + rest[0]] + rest[1..];
        if |rest| == 1 {
          assert s == [s[0]] + s[1..];
        } else {
          assert parts[1..] == rest[1..];
          assert Join(rest, [c]) == rest[0] + [c] + Join(rest[1..], [c]);
          assert s == [s[0]] + s[1..];
        }
      }
    }
  }

  /** A separator-free string is a single piece. */
  lemma {:induction false} SplitNoSeparator(s: string, seps: set<char>)
    requires NoneIn(s, seps)
    ensures Split(s, seps) == [s]
    decreases |s|
  {
    if |s| > 0 {
      SplitNoSeparator(s[1..], seps);
      assert s == [s[0]] + s[1..];
    }
  }

  /** A separator-free prefix followed by a separator becomes the first piece. */
  lemma {:induction false} SplitAtSeparator(x: string, c: char, y: string, seps: set<char>)
    requires NoneIn(x, seps) && c in seps
    ensures Split(x + [c] + y, seps) == [x] + Split(y, seps)
    decreases |x|
  {
    var s := x + [c] + y;
    if |x| == 0 {
      assert s[0] == c && s[1..] == y;
    } else {
      assert s[0] == x[0];
      assert s[1..] == x[1..] + [c] + y;
      SplitAtSeparator(x[1..], c, y, seps);
      assert x == [x[0]] + x[1..];
    }
  }

  /** The first piece of a string that begins with a separator-free `p` begins with `p`. */
  lemma {:induction false} SplitHeadStartsWith(p: string, y: string, seps: set<char>)
    requires NoneIn(p, seps)
    ensures StartsWith(Split(p + y, seps)[0], p)
    decreases |p|
  {
    if |p| > 0 {
      var s := p + y;
      assert s[0] == p[0] && s[1..] == p[1..] + y;
      SplitHeadStartsWith(p[1..], y, seps);
      var rest := Split(s[1..], seps);
      assert Split(s, seps)[0] == [p[0]] + rest[0];
      assert ([p[0]] + rest[0])[..|p|] == [p[0]] + rest[0][..|p| - 1];
      assert p == [p[0]] + p[1..];
    }
  }

  /** Joining separator-free pieces with a separator and splitting again gives the pieces back. */
  lemma {:induction false} SplitJoin(parts: seq<string>, c: char, seps: set<char>)
    requires |parts| >= 1 && c in seps
    requires forall i :: 0 <= i < |parts| ==> NoneIn(parts[i], seps)
    ensures Split(Join(parts, [c]), seps) == parts
    decreases |parts|
  {
    if |parts| == 1 {
      SplitNoSeparator(parts[0], seps);
    } else {
      SplitJoin(parts[1..], c, seps);
      SplitAtSeparator(parts[0], c, Join(parts[1..], [c]), seps);
      assert parts == [parts[0]] + parts[1..];
    }
  }

  /** `s.replace(/[...]/g, '')`: `s` without the characters `bad` selects, in order. */
  function Strip(s: string, bad: char -> bool): (r: string)
    ensures |r| <= |s|
    ensures forall i :: 0 <= i < |r| ==> !bad(r[i])
    ensures forall c :: !bad(c) ==> multiset(r)[c] == multiset(s)[c]
    ensures multiset(r) <= multiset(s)
    decreases |s|
  {
    if |s| == 0 then ""
    else
      assert s == [s[0]] + s[1..];
      (if bad(s[0]) then "" else [s[0]]) + Strip(s[1..], bad)
  }

  /** Stripping a string that has none of the selected characters changes nothing. */
  lemma {:induction false} StripClean(s: string, bad: char -> bool)
    requires forall i :: 0 <= i < |s| ==> !bad(s[i])
    ensures Strip(s, bad) == s
    decreases |s|
  {
    if |s| > 0 {
      StripClean(s[1..], bad);
      assert s == [s[0]] + s[1..];
    }
  }

  /** `s.slice(0, n)`. */
  function Take(s: string, n: nat): (r: string)
    ensures |r| <= n && |r| <= |s|
    ensures |s| <= n ==> r == s
    ensures r == s[..|r|]
  {
    if |s| <= n then s else s[..n]
  }

  lemma TakeMultiset(s: string, n: nat)
    ensures multiset(Take(s, n)) <= multiset(s)
  {
    var r := Take(s, n);
    assert s == r + s[|r|..];
  }

  /** `Trim` keeps a sub-multiset of the characters. */
  lemma TrimMultiset(s: string)
    ensures multiset(Trim(s)) <= multiset(s)
  {
    TrimIsInfix(s);
    InfixMultiset(s, TrimOffset(s), TrimOffset(s) + |Trim(s)|);
  }

  lemma InfixMultiset(s: string, o: nat, e: nat)
    requires o <= e <= |s|
    ensures multiset(s[o..e]) <= multiset(s)
  {
    assert s == s[..o] + s[o..e] + s[e..];
  }
}
