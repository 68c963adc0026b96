/**
 * `recommender/reask.py`: reading a category and a keyword out of free user
 * text by substring search over fixed word lists, and the alternative
 * keywords offered when a search comes back empty.
 */
module Reask {
  import opened Wrappers
  import opened Text

  /** Words that ask for a quiet place. */
  const QuietWords: seq<string> := ["조용한", "둘레길", "공원", "자연", "느긋", "정원", "야경"]
  /** Words that ask for a busy place. */
  const HotWords: seq<string> := ["핫플", "카페", "맛집", "친구", "연인", "데이트"]
  /** The keywords recognised in user text, in priority order. */
  const KeywordWords: seq<string> := ["친구", "연인", "데이트", "카페", "맛집", "가족", "조용한", "둘레길", "공원", "자연", "정원", "야경"]

  const QuietCategory := "느좋"
  const HotCategory := "숨은핫플"

  /** The result of `parse_user_text`; the location is never filled in. */
  datatype Parsed = Parsed(category: Option<string>, keyword: Option<string>, userLocation: Option<string>)

  /** The quiet list is tried first, then the busy list. */
  function CategoryOf(s: string): (c: Option<string>)
    ensures c == Some(QuietCategory) <==> AnyContained(QuietWords, s)
    ensures c == Some(HotCategory) <==> !AnyContained(QuietWords, s) && AnyContained(HotWords, s)
    ensures c == None <==> !AnyContained(QuietWords, s) && !AnyContained(HotWords, s)
  {
    if AnyContained(QuietWords, s) then Some(QuietCategory)
    else if AnyContained(HotWords, s) then Some(HotCategory)
    else None
  }

  /**
   * `parse_user_text`: the text (an absent one read as empty) is lower-cased;
   * the category comes from the two word lists and the keyword is the first
   * recognised word, in list order, that occurs in the text.
   */
  method ParseUserText(text: Option<string>) returns (parsed: Parsed)
    ensures var s := Lower(if text.Some? then text.value else "");
      && parsed.category == CategoryOf(s)
      && (parsed.keyword.Some? ==>
            exists i :: 0 <= i < |KeywordWords| && parsed.keyword.value == KeywordWords[i] &&
              Contains(s, KeywordWords[i]) &&
              forall j :: 0 <= j < i ==> !Contains(s, KeywordWords[j]))
      && (parsed.keyword.None? <==> forall j :: 0 <= j < |KeywordWords| ==> !Contains(s, KeywordWords[j]))
    ensures parsed.userLocation == None
  {
    var s := Lower(if text.Some? then text.value else "");
    var category: Option<string> := None;
    if AnyContained(QuietWords, s) {
      category := Some(QuietCategory);
    } else if AnyContained(HotWords, s) {
      category := Some(HotCategory);
    }
    var keyword: Option<string> := None;
    var i := 0;
    while i < |KeywordWords|
      invariant 0 <= i <= |KeywordWords|
      invariant forall j :: 0 <= j < i ==> !Contains(s, KeywordWords[j])
    {
      if Contains(s, KeywordWords[i]) {
        keyword := Some(KeywordWords[i]);
        break;
      }
      i := i + 1;
    }
    parsed := Parsed(category, keyword, None);
  }

  /** Every word the parser looks for is free of ASCII letters. */
  lemma WordListsUncased()
    ensures forall i :: 0 <= i < |QuietWords| ==> NoAsciiLetter(QuietWords[i])
    ensures forall i :: 0 <= i < |HotWords| ==> NoAsciiLetter(HotWords[i])
    ensures forall i :: 0 <= i < |KeywordWords| ==> NoAsciiLetter(KeywordWords[i])
  {
  }

  /** `any` over a list of uncased words does not see the lower-casing. */
  lemma {:induction false} AnyContainedLower(words: seq<string>, s: string)
    requires forall i :: 0 <= i < |words| ==> NoAsciiLetter(words[i])
    ensures AnyContained(words, Lower(s)) <==> AnyContained(words, s)
  {
    forall i | 0 <= i < |words|
      ensures Contains(Lower(s), words[i]) <==> Contains(s, words[i])
    {
      LowerKeepsUncasedWords(s, words[i]);
    }
  }

  /** Lower-casing the text never changes the category it is read as. */
  lemma CategoryIgnoresCase(s: string)
    ensures CategoryOf(Lower(s)) == CategoryOf(s)
  {
    WordListsUncased();
    AnyContainedLower(QuietWords, s);
    AnyContainedLower(HotWords, s);
  }

  /** The alternatives offered before removing the current keyword. */
  const BaseAlternatives: seq<string> := ["브런치 카페", "야경 좋은 곳", "조용한 정원", "둘레길"]

  const AlternativesMessage := "대안 키워드를 제시합니다."

  /** The result of `suggest_alternatives`. */
  datatype Alternatives = Alternatives(message: string, altKeywords: seq<string>)

  /** `r` is `s` with its entry at `i` dropped, and that entry is the first `x`. */
  predicate RemovedFirstAt(s: seq<string>, x: string, i: int, r: seq<string>) {
    0 <= i < |s| && s[i] == x && x !in s[..i] && r == s[..i] + s[i + 1..]
  }

  /** `list.remove(x)`: drops the first occurrence of `x`; a list without `x` is unchanged. */
  function RemoveFirst(s: seq<string>, x: string): (r: seq<string>)
    ensures x !in s ==> r == s
    ensures x in s ==> |r| == |s| - 1
  {
    if s == [] then []
    else if s[0] == x then s[1..]
    else [s[0]] + RemoveFirst(s[1..], x)
  }

  /** `remove` drops exactly the first occurrence of the value, on every list. */
  lemma {:induction false} RemoveFirstOccurrence(s: seq<string>, x: string)
    requires x in s
    ensures exists i :: RemovedFirstAt(s, x, i, RemoveFirst(s, x))
  {
    if s[0] == x {
      assert RemovedFirstAt(s, x, 0, RemoveFirst(s, x));
    } else {
      assert x in s[1..] by {
        var p :| 0 <= p < |s| && s[p] == x;
        assert s[1..][p - 1] == x;
      }
      RemoveFirstOccurrence(s[1..], x);
      var i :| RemovedFirstAt(s[1..], x, i, RemoveFirst(s[1..], x));
      RemovedFirstCons(s, x, i);
    }
  }

  lemma RemovedFirstCons(s: seq<string>, x: string, i: int)
    requires s != [] && s[0] != x
    requires RemovedFirstAt(s[1..], x, i, RemoveFirst(s[1..], x))
    ensures RemovedFirstAt(s, x, i + 1, RemoveFirst(s, x))
  {
    var t := s[1..];
    assert RemoveFirst(s, x) == [s[0]] + RemoveFirst(t, x);
    assert s[..i + 1] == [s[0]] + t[..i];
    assert s[i + 2..] == t[i + 1..];
  }

  /** The entries of `s` other than `x`, in order. */
  function Without(s: seq<string>, x: string): (r: seq<string>)
    ensures forall y :: y in r <==> y in s && y != x
  {
    if s == [] then []
    else if s[0] == x then Without(s[1..], x)
    else [s[0]] + Without(s[1..], x)
  }

  /** In a list without repeats, removing the first occurrence removes every occurrence. */
  lemma {:induction false} RemoveFirstDistinct(s: seq<string>, x: string)
    requires forall p, q :: 0 <= p < q < |s| ==> s[p] != s[q]
    ensures RemoveFirst(s, x) == Without(s, x)
    decreases |s|
  {
    if s != [] {
      assert forall p, q :: 0 <= p < q < |s[1..]| ==> s[1..][p] != s[1..][q] by {
        assert forall p :: 0 <= p < |s[1..]| ==> s[1..][p] == s[p + 1];
      }
      RemoveFirstDistinct(s[1..], x);
      if s[0] == x {
        assert x !in s[1..] by {
          assert forall p :: 0 <= p < |s[1..]| ==> s[1..][p] == s[p + 1];
        }
        assert Without(s[1..], x) == s[1..];
      }
    }
  }

  /**
   * `suggest_alternatives`: the base list without the current keyword, cut
   * to three entries. The category is not consulted.
   */
  function SuggestAlternatives(category: Option<string>, keyword: Option<string>): (r: Alternatives)
    ensures r.message == AlternativesMessage
    ensures |r.altKeywords| == 3
    ensures forall i :: 0 <= i < 3 ==> r.altKeywords[i] in BaseAlternatives && Some(r.altKeywords[i]) != keyword
    ensures keyword.Some? ==> r.altKeywords == Without(BaseAlternatives, keyword.value)[..3]
    ensures keyword.None? || keyword.value !in BaseAlternatives ==> r.altKeywords == BaseAlternatives[..3]
  {
    var base := if keyword.Some? then RemoveFirst(BaseAlternatives, keyword.value) else BaseAlternatives;
    BaseDistinct();
    if keyword.Some? then
      RemoveFirstDistinct(BaseAlternatives, keyword.value);
      Alternatives(AlternativesMessage, base[..3])
    else
      Alternatives(AlternativesMessage, base[..3])
  }

  lemma BaseDistinct()
    ensures |BaseAlternatives| == 4
    ensures forall p, q :: 0 <= p < q < |BaseAlternatives| ==> BaseAlternatives[p] != BaseAlternatives[q]
  {
    var b := BaseAlternatives;
    assert b[0][0] != b[1][0] && b[0][0] != b[2][0] && b[0][0] != b[3][0];
    assert b[1][0] != b[2][0] && b[1][0] != b[3][0] && b[2][0] != b[3][0];
  }
}
