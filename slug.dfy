/**
 * The slug every script derives from a region's display name:
 *
 *   name.toLowerCase().replace(/\s+/g, "-").replace(/[^a-z0-9-]/g, "")
 *
 * `Slug` is the reference definition, a single left-to-right pass over the name;
 * `Chain` is the three-step chain as the scripts write it, proved equal to `Slug`.
 * Lowercasing is ASCII lowercasing; whitespace is exactly the set of code points
 * that JavaScript's `\s` matches.
 */
module Slug {
  import Strings

  /** JavaScript's `\s`: the ECMAScript WhiteSpace and LineTerminator code points. */
  predicate IsSpace(c: char) {
    var n := c as int;
    n == 0x09 || n == 0x0A || n == 0x0B || n == 0x0C || n == 0x0D || n == 0x20
    || n == 0xA0 || n == 0x1680 || (0x2000 <= n <= 0x200A) || n == 0x2028
    || n == 0x2029 || n == 0x202F || n == 0x205F || n == 0x3000 || n == 0xFEFF
  }

  /** The characters the last step keeps: `[a-z0-9-]`. */
  predicate IsSlugChar(c: char) {
    ('a' <= c <= 'z') || ('0' <= c <= '9') || c == '-'
  }

  predicate IsSlug(s: string) {
    forall i :: 0 <= i < |s| ==> IsSlugChar(s[i])
  }

  predicate NoSpace(s: string) {
    forall i :: 0 <= i < |s| ==> !IsSpace(s[i])
  }

  /** ASCII lowercasing of one character; every other character is left alone. */
  function LowerChar(c: char): char {
    if 'A' <= c <= 'Z' then (c as int + 32) as char else c
  }

  // ---------------------------------------------------------------------------
  // The three steps of the chain
  // ---------------------------------------------------------------------------

  /** `.toLowerCase()`, restricted to ASCII letters. */
  function ToLower(s: string): (r: string)
    ensures |r| == |s|
    ensures forall i :: 0 <= i < |s| ==> r[i] == LowerChar(s[i])
  {
    seq(|s|, i requires 0 <= i < |s| => LowerChar(s[i]))
  }

  /**
   * What lowercasing does: no uppercase ASCII letter is left, each one becomes
   * its lowercase letter, every other character stays where it is, and a
   * second lowercasing changes nothing.
   */
  lemma ToLowerLowercases(s: string)
    ensures forall i :: 0 <= i < |s| ==> !('A' <= ToLower(s)[i] <= 'Z')
    ensures forall i :: 0 <= i < |s| && 'A' <= s[i] <= 'Z' ==> ToLower(s)[i] as int == s[i] as int + 32
    ensures forall i :: 0 <= i < |s| && !('A' <= s[i] <= 'Z') ==> ToLower(s)[i] == s[i]
    ensures ToLower(ToLower(s)) == ToLower(s)
  {
  }

  /** The whitespace at the front of `s` removed: what a greedy `\s+` consumes. */
  function DropSpaces(s: string): (r: string)
    ensures |r| <= |s| && r == s[|s| - |r|..]
    ensures forall i :: 0 <= i < |s| - |r| ==> IsSpace(s[i])
    ensures r == [] || !IsSpace(r[0])
  {
    if s != [] && IsSpace(s[0]) then DropSpaces(s[1..]) else s
  }

  /** `.replace(/\s+/g, "-")`: each maximal run of whitespace becomes one `-`. */
  function CollapseSpaces(s: string): string
    decreases |s|
  {
    if s == [] then []
    else if IsSpace(s[0]) then "-" + CollapseSpaces(DropSpaces(s[1..]))
    else [s[0]] + CollapseSpaces(s[1..])
  }

  /** `.replace(/[^a-z0-9-]/g, "")`: each character outside `[a-z0-9-]` is deleted. */
  function StripUnsafe(s: string): string {
    if s == [] then []
    else (if IsSlugChar(s[0]) then [s[0]] else []) + StripUnsafe(s[1..])
  }

  // ---------------------------------------------------------------------------
  // The reference definition
  // ---------------------------------------------------------------------------

  /**
   * One pass over `s`: a whitespace character yields `-` unless the character
   * before it was whitespace too (`afterSpace`); any other character yields its
   * lowercase form when that is in `[a-z0-9-]`, and nothing otherwise.
   */
  function SlugFrom(s: string, afterSpace: bool): string {
    if s == [] then []
    else if IsSpace(s[0]) then (if afterSpace then [] else "-") + SlugFrom(s[1..], true)
    else
      var c := LowerChar(s[0]);
      (if IsSlugChar(c) then [c] else []) + SlugFrom(s[1..], false)
  }

  /** The URL-safe slug of a display name. */
  function Slug(name: string): string {
    SlugFrom(name, false)
  }

  /** The chain as the scripts write it; it is the slug. */
  function Chain(name: string): (slug: string)
    ensures slug == Slug(name)
  {
    ChainIsSlug(name);
    StripUnsafe(CollapseSpaces(ToLower(name)))
  }

  // ---------------------------------------------------------------------------
  // The chain computes the slug
  // ---------------------------------------------------------------------------

  lemma {:induction false} StripUnsafeConcat(a: string, b: string)
    ensures StripUnsafe(a + b) == StripUnsafe(a) + StripUnsafe(b)
    decreases |a|
  {
    if a != [] {
      assert (a + b)[1..] == a[1..] + b;
      StripUnsafeConcat(a[1..], b);
    } else {
      assert a + b == b;
    }
  }

  lemma {:induction false} DropSpacesLower(s: string)
    ensures DropSpaces(ToLower(s)) == ToLower(DropSpaces(s))
    decreases |s|
  {
    if s != [] && IsSpace(s[0]) {
      assert ToLower(s)[0] == s[0];
      assert ToLower(s)[1..] == ToLower(s[1..]);
      assert DropSpaces(ToLower(s)) == DropSpaces(ToLower(s[1..]));
      DropSpacesLower(s[1..]);
    } else if s != [] {
      assert !IsSpace(ToLower(s)[0]);
      assert DropSpaces(ToLower(s)) == ToLower(s);
    }
  }

  /** After a whitespace character, further whitespace yields nothing. */
  lemma {:induction false} SlugFromAfterSpace(s: string)
    ensures SlugFrom(s, true) == SlugFrom(DropSpaces(s), false)
    decreases |s|
  {
    if s != [] {
      if IsSpace(s[0]) {
        SlugFromAfterSpace(s[1..]);
      }
    }
  }

  lemma {:induction false} ChainIsSlug(s: string)
    ensures StripUnsafe(CollapseSpaces(ToLower(s))) == Slug(s)
    decreases |s|
  {
    if s != [] {
      var l := ToLower(s);
      assert l[1..] == ToLower(s[1..]);
      if IsSpace(s[0]) {
        var rest := DropSpaces(s[1..]);
        DropSpacesLower(s[1..]);
        ChainIsSlug(rest);
        SlugFromAfterSpace(s[1..]);
        StripUnsafeConcat("-", CollapseSpaces(ToLower(rest)));
      } else {
        ChainIsSlug(s[1..]);
        StripUnsafeConcat([l[0]], CollapseSpaces(l[1..]));
      }
    }
  }

  // ---------------------------------------------------------------------------
  // Laws of the slug
  // ---------------------------------------------------------------------------

  lemma {:induction false} SlugFromAlphabet(s: string, afterSpace: bool)
    ensures IsSlug(SlugFrom(s, afterSpace))
    decreases |s|
  {
    if s != [] {
      SlugFromAlphabet(s[1..], IsSpace(s[0]));
    }
  }

  /** Every character of a slug is in `[a-z0-9-]`: the slug is URL-safe. */
  lemma SlugAlphabet(name: string)
    ensures forall i :: 0 <= i < |Slug(name)| ==> IsSlugChar(Slug(name)[i])
  {
    SlugFromAlphabet(name, false);
  }

  lemma {:induction false} SlugFromLength(s: string, afterSpace: bool)
    ensures |SlugFrom(s, afterSpace)| <= |s|
    decreases |s|
  {
    if s != [] {
      SlugFromLength(s[1..], IsSpace(s[0]));
    }
  }

  /** Slugging never lengthens a name: each character yields at most one character. */
  lemma SlugLength(name: string)
    ensures |Slug(name)| <= |name|
  {
    SlugFromLength(name, false);
  }

  lemma {:induction false} SlugFromOfSlug(s: string, afterSpace: bool)
    requires IsSlug(s)
    ensures SlugFrom(s, afterSpace) == s
    decreases |s|
  {
    if s != [] {
      assert IsSlugChar(s[0]);
      SlugFromOfSlug(s[1..], false);
    }
  }

  /** A string over `[a-z0-9-]` is its own slug. */
  lemma SlugOfSlugString(s: string)
    requires IsSlug(s)
    ensures Slug(s) == s
  {
    SlugFromOfSlug(s, false);
  }

  /** Slugging a slug returns it unchanged. */
  lemma SlugIdempotent(name: string)
    ensures Slug(Slug(name)) == Slug(name)
  {
    SlugFromAlphabet(name, false);
    SlugFromOfSlug(Slug(name), false);
  }

  /** Whether the character before the rest of the text was whitespace. */
  function AfterSpaceAt(a: string, afterSpace: bool): bool {
    if a == [] then afterSpace else IsSpace(a[|a| - 1])
  }

  /** The pass over `a + b` is the pass over `a` followed by the pass over `b`. */
  lemma {:induction false} SlugFromConcat(a: string, b: string, afterSpace: bool)
    ensures SlugFrom(a + b, afterSpace) == SlugFrom(a, afterSpace) + SlugFrom(b, AfterSpaceAt(a, afterSpace))
    decreases |a|
  {
    if a == [] {
      assert a + b == b;
    } else {
      var head := if IsSpace(a[0]) then (if afterSpace then [] else "-")
                  else if IsSlugChar(LowerChar(a[0])) then [LowerChar(a[0])] else [];
      assert SlugFrom(a, afterSpace) == head + SlugFrom(a[1..], IsSpace(a[0]));
      assert (a + b)[0] == a[0];
      assert (a + b)[1..] == a[1..] + b;
      assert SlugFrom(a + b, afterSpace) == head + SlugFrom(a[1..] + b, IsSpace(a[0]));
      SlugFromConcat(a[1..], b, IsSpace(a[0]));
      if a[1..] != [] {
        assert a[1..][|a[1..]| - 1] == a[|a| - 1];
      }
      assert AfterSpaceAt(a[1..], IsSpace(a[0])) == AfterSpaceAt(a, afterSpace);
      Strings.ConcatAssoc(head, SlugFrom(a[1..], IsSpace(a[0])), SlugFrom(b, AfterSpaceAt(a, afterSpace)));
    }
  }

  /** Slugs are not collision-free: names that differ only in dropped characters share one. */
  lemma SlugNotInjective()
    ensures "D.C." != "DC" && Slug("D.C.") == Slug("DC") == "dc"
  {
  }

  // ---------------------------------------------------------------------------
  // Laws of the whitespace step: each whitespace run becomes exactly one `-`
  // ---------------------------------------------------------------------------

  /** The result holds no whitespace and is never longer than the input. */
  lemma {:induction false} CollapseSpacesShape(s: string)
    ensures NoSpace(CollapseSpaces(s))
    ensures |CollapseSpaces(s)| <= |s|
    decreases |s|
  {
    if s != [] {
      if IsSpace(s[0]) {
        CollapseSpacesShape(DropSpaces(s[1..]));
      } else {
        CollapseSpacesShape(s[1..]);
      }
    }
  }

  /** Text without whitespace passes unchanged. */
  lemma {:induction false} CollapseSpacesNoSpace(s: string)
    requires NoSpace(s)
    ensures CollapseSpaces(s) == s
    decreases |s|
  {
    if s != [] {
      assert !IsSpace(s[0]);
      CollapseSpacesNoSpace(s[1..]);
    }
  }

  /** A non-empty run of whitespace becomes a single `-`. */
  lemma CollapseSpacesRun(w: string)
    requires |w| > 0 && forall i :: 0 <= i < |w| ==> IsSpace(w[i])
    ensures CollapseSpaces(w) == "-"
  {
    DropSpacesAll(w[1..]);
  }

  lemma {:induction false} DropSpacesAll(s: string)
    requires forall i :: 0 <= i < |s| ==> IsSpace(s[i])
    ensures DropSpaces(s) == []
    decreases |s|
  {
    if s != [] {
      DropSpacesAll(s[1..]);
    }
  }

  lemma {:induction false} DropSpacesConcat(x: string, y: string)
    requires DropSpaces(x) != [] || y == [] || !IsSpace(y[0])
    ensures DropSpaces(x + y) == DropSpaces(x) + y
    decreases |x|
  {
    if x == [] {
      assert x + y == y;
    } else if IsSpace(x[0]) {
      assert (x + y)[0] == x[0];
      assert (x + y)[1..] == x[1..] + y;
      assert DropSpaces(x) == DropSpaces(x[1..]);
      DropSpacesConcat(x[1..], y);
      assert DropSpaces(x + y) == DropSpaces(x[1..] + y);
    } else {
      assert (x + y)[0] == x[0];
    }
  }

  /** Where the boundary is not inside a whitespace run, both sides collapse separately. */
  lemma {:induction false} CollapseSpacesConcat(a: string, b: string)
    requires a == [] || b == [] || !IsSpace(a[|a| - 1]) || !IsSpace(b[0])
    ensures CollapseSpaces(a + b) == CollapseSpaces(a) + CollapseSpaces(b)
    decreases |a|, 1
  {
    if a == [] {
      assert a + b == b;
    } else if IsSpace(a[0]) {
      CollapseSpacesConcatRun(a, b);
    } else {
      var ab := a + b;
      assert ab[0] == a[0] && ab[1..] == a[1..] + b;
      assert CollapseSpaces(ab) == [a[0]] + CollapseSpaces(a[1..] + b);
      assert CollapseSpaces(a) == [a[0]] + CollapseSpaces(a[1..]);
      assert a[1..] == [] || a[1..][|a[1..]| - 1] == a[|a| - 1];
      CollapseSpacesConcat(a[1..], b);
      Strings.ConcatAssoc([a[0]], CollapseSpaces(a[1..]), CollapseSpaces(b));
    }
  }

  /** The case of `CollapseSpacesConcat` where `a` starts with whitespace. */
  lemma {:induction false} CollapseSpacesConcatRun(a: string, b: string)
    requires a != [] && IsSpace(a[0])
    requires b == [] || !IsSpace(a[|a| - 1]) || !IsSpace(b[0])
    ensures CollapseSpaces(a + b) == CollapseSpaces(a) + CollapseSpaces(b)
    decreases |a|, 0
  {
    var rest := DropSpaces(a[1..]);
    CollapseSpacesRunHead(a, b);
    DropSpacesRunTail(a, b);
    CollapseSpacesConcat(rest, b);
    assert CollapseSpaces(a) == "-" + CollapseSpaces(rest);
    Strings.ConcatAssoc("-", CollapseSpaces(rest), CollapseSpaces(b));
  }

  /** A text that starts with whitespace collapses to `-` and then the text after the run. */
  lemma CollapseSpacesRunHead(a: string, b: string)
    requires a != [] && IsSpace(a[0])
    ensures CollapseSpaces(a + b) == "-" + CollapseSpaces(DropSpaces(a[1..] + b))
  {
    assert (a + b)[0] == a[0];
    assert (a + b)[1..] == a[1..] + b;
  }

  /** Skipping the run after the first character of `a` stops inside `a`, or at a `b` that starts without whitespace. */
  lemma DropSpacesRunTail(a: string, b: string)
    requires a != [] && IsSpace(a[0])
    requires b == [] || !IsSpace(a[|a| - 1]) || !IsSpace(b[0])
    ensures DropSpaces(a[1..] + b) == DropSpaces(a[1..]) + b
    ensures var rest := DropSpaces(a[1..]); rest == [] || b == [] || !IsSpace(rest[|rest| - 1]) || !IsSpace(b[0])
  {
    var tail := a[1..];
    var rest := DropSpaces(tail);
    assert rest == [] || rest[|rest| - 1] == a[|a| - 1];
    assert rest == [] ==> b == [] || !IsSpace(b[0]) by {
      if rest == [] && tail != [] {
        assert IsSpace(tail[|tail| - 1]);
      }
    }
    DropSpacesConcat(tail, b);
  }

  /**
   * A whitespace run `w` between text `a` that does not end in whitespace and
   * text `b` that does not start with it is replaced by exactly one `-`.
   */
  lemma CollapseSpacesBetween(a: string, w: string, b: string)
    requires a == [] || !IsSpace(a[|a| - 1])
    requires |w| > 0 && forall i :: 0 <= i < |w| ==> IsSpace(w[i])
    requires b == [] || !IsSpace(b[0])
    ensures CollapseSpaces(a + w + b) == CollapseSpaces(a) + "-" + CollapseSpaces(b)
  {
    CollapseSpacesConcat(a, w);
    CollapseSpacesConcat(a + w, b);
    CollapseSpacesRun(w);
  }

  // ---------------------------------------------------------------------------
  // Laws of the filtering step
  // ---------------------------------------------------------------------------

  /**
   * Filtering keeps exactly the `[a-z0-9-]` characters, each as often as it
   * occurs in the input, and drops every other character.
   */
  lemma {:induction false} StripUnsafeKeeps(s: string)
    ensures IsSlug(StripUnsafe(s))
    ensures |StripUnsafe(s)| <= |s|
    ensures forall c :: c in StripUnsafe(s) <==> c in s && IsSlugChar(c)
    ensures forall c :: multiset(StripUnsafe(s))[c] == if IsSlugChar(c) then multiset(s)[c] else 0
    decreases |s|
  {
    if s != [] {
      StripUnsafeKeeps(s[1..]);
      assert s == [s[0]] + s[1..];
      assert multiset(s) == multiset([s[0]]) + multiset(s[1..]);
      var head := if IsSlugChar(s[0]) then [s[0]] else [];
      assert StripUnsafe(s) == head + StripUnsafe(s[1..]);
      assert multiset(StripUnsafe(s)) == multiset(head) + multiset(StripUnsafe(s[1..]));
    }
  }

  /** A string over `[a-z0-9-]` is left as it is. */
  lemma {:induction false} StripUnsafeOfSlug(s: string)
    requires IsSlug(s)
    ensures StripUnsafe(s) == s
    decreases |s|
  {
    if s != [] {
      assert IsSlugChar(s[0]);
      StripUnsafeOfSlug(s[1..]);
    }
  }

  // ---------------------------------------------------------------------------
  // Names made of words
  // ---------------------------------------------------------------------------

  /** A non-empty run of ASCII letters and digits. */
  predicate IsWord(w: string) {
    |w| > 0 && forall i :: 0 <= i < |w| ==> IsAlnum(w[i])
  }

  predicate IsAlnum(c: char) {
    ('a' <= c <= 'z') || ('A' <= c <= 'Z') || ('0' <= c <= '9')
  }

  /** The words with `sep` between each two of them. */
  function Joined(words: seq<string>, sep: string): string {
    if |words| == 0 then []
    else if |words| == 1 then words[0]
    else words[0] + (sep + Joined(words[1..], sep))
  }

  /** Four words with `sep` between each two of them. */
  lemma JoinedFour(a: string, b: string, c: string, d: string, sep: string)
    ensures Joined([a, b, c, d], sep) == a + (sep + (b + (sep + (c + (sep + d)))))
  {
    assert [a, b, c, d][1..] == [b, c, d];
    assert [b, c, d][1..] == [c, d];
    assert [c, d][1..] == [d];
    assert Joined([d], sep) == d;
    assert Joined([c, d], sep) == c + (sep + Joined([d], sep));
    assert Joined([b, c, d], sep) == b + (sep + Joined([c, d], sep));
    assert Joined([a, b, c, d], sep) == a + (sep + Joined([b, c, d], sep));
  }

  function LowerWords(words: seq<string>): (r: seq<string>)
    ensures |r| == |words|
    ensures forall i :: 0 <= i < |words| ==> r[i] == ToLower(words[i])
  {
    seq(|words|, i requires 0 <= i < |words| => ToLower(words[i]))
  }

  lemma {:induction false} SlugFromAlnum(w: string, afterSpace: bool)
    requires forall i :: 0 <= i < |w| ==> IsAlnum(w[i])
    ensures SlugFrom(w, afterSpace) == ToLower(w)
    decreases |w|
  {
    if w != [] {
      SlugFromAlnum(w[1..], false);
      assert ToLower(w) == [LowerChar(w[0])] + ToLower(w[1..]);
    }
  }

  /**
   * A name made of letter-and-digit words separated by single spaces slugs to
   * its lowercased words separated by single hyphens.
   */
  lemma {:induction false} SlugOfWords(words: seq<string>, afterSpace: bool)
    requires forall i :: 0 <= i < |words| ==> IsWord(words[i])
    ensures SlugFrom(Joined(words, " "), afterSpace) == Joined(LowerWords(words), "-")
    decreases |words|
  {
    if |words| == 1 {
      SlugFromAlnum(words[0], afterSpace);
    } else if |words| > 1 {
      var rest := Joined(words[1..], " ");
      SlugFromConcat(words[0], " " + rest, afterSpace);
      SlugFromAlnum(words[0], afterSpace);
      assert (" " + rest)[1..] == rest;
      SlugOfWords(words[1..], true);
      assert LowerWords(words)[1..] == LowerWords(words[1..]);
    }
  }
}
