/**
 * Text assembled from lines, as the page generators' template literals
 * assemble a Markdown page, and what can be said about where a piece of text
 * occurs in it.
 */
module Template {
  import Strings

  /** The text of the lines `ls`, each ended by a line break. */
  function Unlines(ls: seq<string>): string
    decreases |ls|
  {
    if ls == [] then "" else ls[0] + "\n" + Unlines(ls[1..])
  }

  /** `needle` occurs in `hay` as a contiguous piece of text. */
  predicate Occurs(needle: string, hay: string) {
    exists k :: 0 <= k <= |hay| && OccursAt(needle, hay, k)
  }

  /** `needle` occurs in `hay` starting at position `k`. */
  predicate OccursAt(needle: string, hay: string, k: int) {
    0 <= k <= |hay| - |needle| && hay[k..k + |needle|] == needle
  }

  /** The text of two blocks of lines is the text of the first followed by the text of the second. */
  lemma {:induction false} UnlinesConcat(a: seq<string>, b: seq<string>)
    ensures Unlines(a + b) == Unlines(a) + Unlines(b)
    decreases |a|
  {
    if a == [] {
      assert a + b == b;
    } else {
      assert (a + b)[1..] == a[1..] + b;
      UnlinesConcat(a[1..], b);
      Strings.ConcatAssoc(a[0] + "\n", Unlines(a[1..]), Unlines(b));
    }
  }

  /** The text begins with the first line and its line break. */
  lemma UnlinesFirst(ls: seq<string>)
    requires |ls| > 0
    ensures ls[0] + "\n" <= Unlines(ls)
  {
  }

  /** Every line after the first stands in the text on a line of its own. */
  lemma LineOccurs(ls: seq<string>, k: int)
    requires 0 < k < |ls|
    ensures Occurs("\n" + ls[k] + "\n", Unlines(ls))
  {
    var pre, pair, post := ls[..k - 1], [ls[k - 1], ls[k]], ls[k + 1..];
    var needle := "\n" + ls[k] + "\n";
    SplitAround(ls, k);
    UnlinesConcat(pre + pair, post);
    UnlinesConcat(pre, pair);
    assert Occurs(needle, Unlines(pair)) by {
      UnlinesPair(ls[k - 1], ls[k]);
      OccursInfix(ls[k - 1], needle, []);
      assert ls[k - 1] + needle + [] == Unlines(pair);
    }
    OccursWithin(needle, Unlines(pre), Unlines(pair), Unlines(post));
  }

  /** The lines before line `k - 1`, lines `k - 1` and `k`, and the lines after `k` make up `ls`. */
  lemma SplitAround(ls: seq<string>, k: int)
    requires 0 < k < |ls|
    ensures ls == ls[..k - 1] + [ls[k - 1], ls[k]] + ls[k + 1..]
  {
    var pre, post := ls[..k - 1], ls[k + 1..];
    assert ls[..k] == pre + [ls[k - 1]];
    assert ls[..k + 1] == ls[..k] + [ls[k]];
    assert pre + [ls[k - 1], ls[k]] == pre + [ls[k - 1]] + [ls[k]];
    assert ls == ls[..k + 1] + post;
  }

  lemma UnlinesPair(x: string, y: string)
    ensures Unlines([x, y]) == x + ("\n" + y + "\n")
  {
    assert [x, y][1..] == [y];
    assert [y][1..] == [];
    assert Unlines([y]) == y + "\n" + "";
    assert Unlines([x, y]) == x + "\n" + (y + "\n" + "");
    Strings.ConcatAssoc(x, "\n", y + "\n");
  }

  /** Text between two others occurs in the whole. */
  lemma OccursInfix(pre: string, mid: string, post: string)
    ensures Occurs(mid, pre + mid + post)
  {
    var hay := pre + mid + post;
    assert hay[|pre|..|pre| + |mid|] == mid;
    assert OccursAt(mid, hay, |pre|);
  }

  /** Text occurring in a part occurs in the whole. */
  lemma OccursWithin(needle: string, pre: string, mid: string, post: string)
    requires Occurs(needle, mid)
    ensures Occurs(needle, pre + mid + post)
  {
    var k :| 0 <= k <= |mid| && OccursAt(needle, mid, k);
    var hay := pre + mid + post;
    assert hay[|pre| + k..|pre| + k + |needle|] == mid[k..k + |needle|];
    assert OccursAt(needle, hay, |pre| + k);
  }

  /** Text between a fixed prefix and a fixed suffix is recovered from the whole. */
  lemma AffixInjective(pre: string, post: string, s1: string, s2: string)
    ensures pre + s1 + post == pre + s2 + post <==> s1 == s2
  {
    if pre + s1 + post == pre + s2 + post {
      assert |s1| == |s2|;
      forall k | 0 <= k < |s1|
        ensures s1[k] == s2[k]
      {
        assert s1[k] == (pre + s1 + post)[|pre| + k];
        assert s2[k] == (pre + s2 + post)[|pre| + k];
      }
    }
  }
}
