/** The optional value used throughout the model for Python's `None`. */
module Wrappers {
  datatype Option<+T> = None | Some(value: T)
}

/**
 * Python's string containment (`needle in hay`), first-match search over a
 * fixed word list, and the lower-casing applied to user text.
 */
module Text {
  import opened Wrappers

  predicate IsPrefix(p: string, s: string) {
    |p| <= |s| && s[..|p|] == p
  }

  /** Python's `needle in hay` on two strings; the empty needle is in every string. */
  predicate Contains(hay: string, needle: string)
    ensures Contains(hay, needle) ==> |needle| <= |hay|
    ensures needle == [] ==> Contains(hay, needle)
    decreases |hay|
  {
    IsPrefix(needle, hay) || (|hay| > 0 && Contains(hay[1..], needle))
  }

  /** The needle occurs in the hay starting at offset `i`. */
  predicate OccursAt(hay: string, needle: string, i: int) {
    0 <= i && i + |needle| <= |hay| && hay[i..i + |needle|] == needle
  }

  /** `Contains` holds exactly when the needle occurs at some offset of the hay. */
  lemma {:induction false} ContainsAt(hay: string, needle: string)
    ensures Contains(hay, needle) <==> exists i :: OccursAt(hay, needle, i)
    decreases |hay|
  {
    if Contains(hay, needle) {
      if IsPrefix(needle, hay) {
        assert OccursAt(hay, needle, 0);
      } else {
        ContainsAt(hay[1..], needle);
        var i :| OccursAt(hay[1..], needle, i);
        assert hay[i + 1..i + 1 + |needle|] == hay[1..][i..i + |needle|];
        assert OccursAt(hay, needle, i + 1);
      }
    }
    if exists i :: OccursAt(hay, needle, i) {
      var i :| OccursAt(hay, needle, i);
      if i == 0 {
        assert IsPrefix(needle, hay);
      } else {
        assert hay[1..][i - 1..i - 1 + |needle|] == hay[i..i + |needle|];
        assert OccursAt(hay[1..], needle, i - 1);
        ContainsAt(hay[1..], needle);
      }
    }
  }

  /** A string is contained in another of the same length only when the two are equal. */
  lemma SameLengthContains(hay: string, needle: string)
    requires |hay| == |needle|
    ensures Contains(hay, needle) <==> hay == needle
  {
    ContainsAt(hay, needle);
    if Contains(hay, needle) {
      var i :| OccursAt(hay, needle, i);
      assert i == 0;
      assert hay == hay[0..|needle|];
    } else {
      assert hay[0..|needle|] != needle;
    }
  }

  /**
   * Index of the first needle, in list order, that occurs in `hay`: the
   * `for w in words: if w in hay: ... break` search of the source.
   */
  function FirstContained(needles: seq<string>, hay: string): (r: Option<nat>)
    ensures r.Some? ==> r.value < |needles| && Contains(hay, needles[r.value])
    ensures r.Some? ==> forall j :: 0 <= j < r.value ==> !Contains(hay, needles[j])
    ensures r.None? <==> forall j :: 0 <= j < |needles| ==> !Contains(hay, needles[j])
  {
    if |needles| == 0 then None
    else if Contains(hay, needles[0]) then Some(0)
    else
      match FirstContained(needles[1..], hay)
      case None => None
      case Some(i) => Some(i + 1)
  }

  /** Python's `any(w in hay for w in needles)`. */
  predicate AnyContained(needles: seq<string>, hay: string)
    ensures AnyContained(needles, hay) <==> exists i :: 0 <= i < |needles| && Contains(hay, needles[i])
  {
    FirstContained(needles, hay).Some?
  }

  function LowerChar(c: char): char {
    if 'A' <= c <= 'Z' then (c as int + 32) as char else c
  }

  /** `str.lower()`, restricted to the ASCII letters. */
  function Lower(s: string): (r: string)
    ensures |r| == |s|
    ensures forall i :: 0 <= i < |s| ==> r[i] == LowerChar(s[i])
  {
    seq(|s|, i requires 0 <= i < |s| => LowerChar(s[i]))
  }

  predicate NoAsciiLetter(w: string) {
    forall j :: 0 <= j < |w| ==> !('A' <= w[j] <= 'Z') && !('a' <= w[j] <= 'z')
  }

  /** At a fixed offset, an uncased word occurs in the lowered text iff it occurs in the text. */
  lemma OccursLower(s: string, w: string, i: int)
    requires NoAsciiLetter(w)
    ensures OccursAt(Lower(s), w, i) <==> OccursAt(s, w, i)
  {
    var t := Lower(s);
    if 0 <= i && i + |w| <= |s| {
      if t[i..i + |w|] == w {
        forall j | 0 <= j < |w| ensures s[i + j] == w[j] {
          assert t[i + j] == w[j];
        }
        assert s[i..i + |w|] == w;
      }
      if s[i..i + |w|] == w {
        forall j | 0 <= j < |w| ensures t[i + j] == w[j] {
          assert s[i + j] == w[j];
        }
        assert t[i..i + |w|] == w;
      }
    }
  }

  /**
   * Lower-casing the text never changes whether a word without ASCII letters
   * (every Hangul keyword of the recommender) occurs in it.
   */
  lemma LowerKeepsUncasedWords(s: string, w: string)
    requires NoAsciiLetter(w)
    ensures Contains(Lower(s), w) <==> Contains(s, w)
  {
    var t := Lower(s);
    ContainsAt(t, w);
    ContainsAt(s, w);
    if Contains(t, w) {
      var i :| OccursAt(t, w, i);
      OccursLower(s, w, i);
    }
    if Contains(s, w) {
      var i :| OccursAt(s, w, i);
      OccursLower(s, w, i);
    }
  }
}
