/** The marks behind the links of a text: where they stand and which link they name. */
module LinkMarks {
  import opened LineModel
  import opened RenderText

  // ---------------------------------------------------------------- what a link mark says

  /** The number that decimal digits stand for. */
  function NumberOf(digits: seq<Rune>): int {
    if digits == [] then 0 else 10 * NumberOf(digits[..|digits| - 1]) + (digits[|digits| - 1].code - 0x30)
  }

  predicate IsNumeral(digits: seq<Rune>) {
    && digits != [] && digits[0].code != 0x30
    && forall k :: 0 <= k < |digits| ==> 0x30 <= digits[k].code <= 0x39 && digits[k].width == 1
  }

  lemma {:induction false} DigitsAreDecimal(n: nat)
    requires n >= 1
    ensures IsNumeral(Digits(n)) && NumberOf(Digits(n)) == n
  {
    if n >= 10 {
      DigitsAreDecimal(n / 10);
      assert Digits(n)[..|Digits(n)| - 1] == Digits(n / 10);
    } else {
      assert Digits(n)[..0] == [];
      assert NumberOf([]) == 0;
    }
  }

  /** The mark shows in brackets, behind a space that does not break, the place of the link in the list,
      counted from one. */
  predicate PointsTo(mark: seq<Rune>, links: seq<seq<Rune>>, url: seq<Rune>) {
    && |mark| >= 4 && mark[0] == NO_BREAK_SPACE && mark[1].code == 0x5B && mark[|mark| - 1].code == 0x5D
    && IsNumeral(mark[2..|mark| - 1])
    && 1 <= NumberOf(mark[2..|mark| - 1]) <= |links| && links[NumberOf(mark[2..|mark| - 1]) - 1] == url
  }

  lemma {:induction false} LinksGrow(source: seq<Rune>, i: nat, links: seq<seq<Rune>>)
    requires i <= |source|
    ensures links <= FinalLinks(source, i, links)
    decreases |source| - i
  {
    if i < |source| { LinksGrow(source, NextToken(source, i), LinksAfter(source, i, links)); }
  }

  /** A token with a link gets a mark that points to this link in the list at the end, and any other token
      gets none. */
  lemma {:induction false} MarkPointsToLink(source: seq<Rune>, i: nat, links: seq<seq<Rune>>)
    requires i < |source|
    ensures match Link(source, i, TokenEnd(source, i))
      case Some(url) =>
        |MarkPlan(source, i, links)| == 1 && MarkPlan(source, i, links)[0].Mark?
        && PointsTo(MarkPlan(source, i, links)[0].text, FinalLinks(source, i, links), url)
      case None => MarkPlan(source, i, links) == []
  {
    hide Link, Digits, IsNumeral, NumberOf, TokenEnd;
    match Link(source, i, TokenEnd(source, i))
    case Some(url) =>
      var k := IndexOf(links, url);
      var mark := MarkText(k);
      DigitsAreDecimal(k + 1);
      NumeralIsNotEmpty(Digits(k + 1));
      assert mark[2..|mark| - 1] == Digits(k + 1);
      LinksGrow(source, NextToken(source, i), LinksAfter(source, i, links));
      assert LinksAfter(source, i, links)[k] == url;
    case None =>
  }

  lemma {:induction false} NumeralIsNotEmpty(digits: seq<Rune>)
    requires IsNumeral(digits)
    ensures |digits| >= 1
  {
  }

  predicate NoneTwice(links: seq<seq<Rune>>) {
    forall j, k :: 0 <= j < k < |links| ==> links[j] != links[k]
  }

  /** Every link has one number. */
  lemma {:induction false} LinksStayDistinct(source: seq<Rune>, i: nat, links: seq<seq<Rune>>)
    requires i <= |source| && NoneTwice(links)
    ensures NoneTwice(FinalLinks(source, i, links))
    decreases |source| - i
  {
    hide Link, TokenEnd;
    if i < |source| { LinksStayDistinct(source, NextToken(source, i), LinksAfter(source, i, links)); }
  }

  // ---------------------------------------------------------------- where the marks stand

  /** A token begins where the text does or behind a whitespace character. */
  predicate Starts(source: seq<Rune>, i: nat, k: nat) {
    i <= k < |source| && (k == i || IsWideWhitespace(source[k - 1]))
  }

  /** The segment `p` of the plan is the mark of the link of the token that begins at `k`: it stands right
      behind the token and points to the link in the final list. */
  predicate MarkAt(source: seq<Rune>, i: nat, links: seq<seq<Rune>>, p: nat, k: nat, url: seq<Rune>) {
    && i <= k <= |source|
    && var plan := Plan(source, i, links);
    && p < |plan| && plan[p].Mark?
    && SourceOf(plan[..p]) == source[i..TokenEnd(source, k)]
    && Link(source, k, TokenEnd(source, k)) == Some(url)
    && PointsTo(plan[p].text, FinalLinks(source, i, links), url)
  }

  /** The mark of the first token. */
  lemma {:induction false} FirstMark(source: seq<Rune>, i: nat, links: seq<seq<Rune>>, url: seq<Rune>)
    requires i < |source| && Link(source, i, TokenEnd(source, i)) == Some(url)
    ensures MarkAt(source, i, links, TokenEnd(source, i) - i, i, url)
  {
    hide Link, TokenEnd, NextToken, FinalLinks, LinksAfter, PointsTo, MarkPlan, SourceOf;
    var j, plan := TokenEnd(source, i), Plan(source, i, links);
    MarkPointsToLink(source, i, links);
    SourceOfSources(source[i..j]);
    assert TokenPlan(source, i, links)[..j - i] == Sources(source[i..j]);
    assert TokenPlan(source, i, links)[j - i] == MarkPlan(source, i, links)[0];
    assert plan[..j - i] == TokenPlan(source, i, links)[..j - i];
  }

  /** The marks behind the first token are those of the text behind it. */
  lemma {:induction false} LaterMark(source: seq<Rune>, i: nat, links: seq<seq<Rune>>, p: nat, k: nat, url: seq<Rune>)
    requires i < |source| && NextToken(source, i) <= k <= |source|
    ensures MarkAt(source, NextToken(source, i), LinksAfter(source, i, links), p, k, url)
      <==> MarkAt(source, i, links, |TokenPlan(source, i, links)| + p, k, url)
  {
    hide Link, TokenEnd, NextToken, LinksAfter, PointsTo, TokenPlan, SourceOf;
    var n, more := NextToken(source, i), LinksAfter(source, i, links);
    var token, rest := TokenPlan(source, i, links), Plan(source, n, more);
    var plan := Plan(source, i, links);
    assert plan == token + rest;
    if p < |rest| {
      assert plan[..|token| + p] == token + rest[..p];
      SourceOfConcat(token, rest[..p]);
      TokenKeepsSource(source, i, links);
      assert source[i..TokenEnd(source, k)] == source[i..n] + source[n..TokenEnd(source, k)];
      assert plan[|token| + p] == rest[p];
    }
  }

  lemma {:induction false} StartsLater(source: seq<Rune>, i: nat, k: nat)
    requires i < |source|
    ensures Starts(source, i, k) && k != i ==> NextToken(source, i) <= k && Starts(source, NextToken(source, i), k)
    ensures Starts(source, NextToken(source, i), k) ==> Starts(source, i, k)
  {
  }

  /** Every token with a link has its mark. */
  lemma {:induction false} LinksHaveMarks(source: seq<Rune>, i: nat, links: seq<seq<Rune>>, k: nat, url: seq<Rune>)
    requires Starts(source, i, k) && Link(source, k, TokenEnd(source, k)) == Some(url)
    ensures exists p :: MarkAt(source, i, links, p, k, url)
    decreases |source| - i
  {
    hide Link, TokenEnd, NextToken, LinksAfter, MarkAt, TokenPlan;
    if k == i {
      FirstMark(source, i, links, url);
    } else {
      StartsLater(source, i, k);
      LinksHaveMarks(source, NextToken(source, i), LinksAfter(source, i, links), k, url);
      var p :| MarkAt(source, NextToken(source, i), LinksAfter(source, i, links), p, k, url);
      LaterMark(source, i, links, p, k, url);
    }
  }

  /** Every mark is that of a token with a link. */
  lemma {:induction false} MarksHaveLinks(source: seq<Rune>, i: nat, links: seq<seq<Rune>>, p: nat)
    requires i <= |source| && p < |Plan(source, i, links)| && Plan(source, i, links)[p].Mark?
    ensures exists k, url :: Starts(source, i, k) && MarkAt(source, i, links, p, k, url)
    decreases |source| - i
  {
    hide Link, TokenEnd, NextToken, LinksAfter, MarkAt;
    var token := TokenPlan(source, i, links);
    if p < |token| {
      MarkInToken(source, i, links, p);
      var url := Link(source, i, TokenEnd(source, i)).value;
      FirstMark(source, i, links, url);
      StartsHere(source, i);
    } else {
      var n, more := NextToken(source, i), LinksAfter(source, i, links);
      MarksHaveLinks(source, n, more, p - |token|);
      var k, url :| Starts(source, n, k) && MarkAt(source, n, more, p - |token|, k, url);
      StartsLater(source, i, k);
      LaterMark(source, i, links, p - |token|, k, url);
    }
  }

  lemma {:induction false} StartsHere(source: seq<Rune>, i: nat)
    requires i < |source|
    ensures Starts(source, i, i)
  {
  }

  lemma {:induction false} MarkInToken(source: seq<Rune>, i: nat, links: seq<seq<Rune>>, p: nat)
    requires i < |source| && p < |TokenPlan(source, i, links)| && TokenPlan(source, i, links)[p].Mark?
    ensures Link(source, i, TokenEnd(source, i)).Some? && p == TokenEnd(source, i) - i
  {
  }

  /** The list of links only grows from block to block: the marks of a block point into the final list. */
  lemma {:induction false} BlockLinksGrow(blocks: seq<Block>, states: seq<State>, lists: seq<seq<seq<Rune>>>, i: nat, j: nat)
    requires AfterBlocks(blocks, states, lists) && i <= j <= |blocks|
    ensures |lists| == |blocks| + 1 && lists[i] <= lists[j]
    decreases j
  {
    hide AfterBlock, FinalLinks;
    if i < j {
      BlockLinksGrow(blocks, states, lists, i, j - 1);
      LinksGrow(blocks[j - 1].content, 0, lists[j - 1]);
    }
  }
}
