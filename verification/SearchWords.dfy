/** What the words of a chat search's option filter are, and what scoring them counts. */
module SearchWords {
  import opened Options
  import opened Catalogue
  import opened VariantChoice
  import opened Whitespace

  ghost predicate NoSeparator(text: string, i: int, j: int)
    requires 0 <= i <= j <= |text|
  {
    forall k :: i <= k < j ==> !IsSeparator(text[k])
  }

  /** A maximal stretch of the text without a separator. */
  ghost predicate IsWord(text: string, i: int, j: int) {
    && 0 <= i < j <= |text| && NoSeparator(text, i, j)
    && (i == 0 || IsSeparator(text[i - 1])) && (j == |text| || IsSeparator(text[j]))
  }

  ghost predicate InOrder(starts: seq<int>, ends: seq<int>) {
    |starts| == |ends| && forall k, l :: 0 <= k < l < |starts| ==> ends[k] < starts[l]
  }

  ghost predicate AreWords(text: string, from: int, starts: seq<int>, ends: seq<int>) {
    |starts| == |ends| && forall k :: 0 <= k < |starts| ==> from <= starts[k] && IsWord(text, starts[k], ends[k])
  }

  ghost predicate IsListed(starts: seq<int>, ends: seq<int>, i: int, j: int) {
    |starts| == |ends| && exists k :: 0 <= k < |starts| && starts[k] == i && ends[k] == j
  }

  /** `starts` and `ends` list the words of the text from position `from` on, in order and without exception. */
  ghost predicate ListsWords(text: string, from: int, starts: seq<int>, ends: seq<int>) {
    && AreWords(text, from, starts, ends) && InOrder(starts, ends)
    && forall i, j :: IsWord(text, i, j) && from <= i ==> IsListed(starts, ends, i, j)
  }

  ghost predicate AreTexts(words: seq<string>, text: string, starts: seq<int>, ends: seq<int>) {
    && |words| == |starts| == |ends|
    && forall k :: 0 <= k < |words| ==> 0 <= starts[k] <= ends[k] <= |text| && words[k] == text[starts[k]..ends[k]]
  }

  /** The reading position is `p`, and the word being read began at `b`. */
  lemma {:induction false} WordsFrom(text: string, b: nat, p: nat) returns (starts: seq<int>, ends: seq<int>)
    requires b <= p <= |text| && NoSeparator(text, b, p) && (b == 0 || IsSeparator(text[b - 1]))
    ensures ListsWords(text, b, starts, ends)
    ensures AreTexts(WordsAfter(text[b..p], text[p..]), text, starts, ends)
    decreases |text| - p
  {
    if p == |text| {
      starts, ends := if b < p then [b] else [], if b < p then [p] else [];
      assert text[p..] == "";
      assert forall i, j :: IsWord(text, i, j) && b <= i ==> i == b && j == p;
    } else if IsSeparator(text[p]) {
      assert text[p..][1..] == text[p + 1..] && text[p + 1..p + 1] == "";
      starts, ends := WordsFrom(text, p + 1, p + 1);
      var later := WordsAfter("", text[p + 1..]);
      if b < p {
        WordBefore(text, b, p, starts, ends, later);
        starts, ends := [b] + starts, [p] + ends;
      } else {
        NoWordBefore(text, p, starts, ends);
        assert [] + later == later;
      }
    } else {
      assert text[b..p] + [text[p]] == text[b..p + 1] && text[p..][1..] == text[p + 1..];
      starts, ends := WordsFrom(text, b, p + 1);
    }
  }

  lemma OnlyWordFrom(text: string, b: int, p: int, i: int, j: int)
    requires IsWord(text, b, p) && p < |text| && IsWord(text, i, j) && b <= i <= p
    ensures i == b && j == p
  {
  }

  lemma ListedBehind(starts: seq<int>, ends: seq<int>, b: int, p: int, i: int, j: int)
    requires IsListed(starts, ends, i, j) || (|starts| == |ends| && i == b && j == p)
    ensures IsListed([b] + starts, [p] + ends, i, j)
  {
    var s, e := [b] + starts, [p] + ends;
    assert s[0] == b && e[0] == p;
    if IsListed(starts, ends, i, j) {
      var k :| 0 <= k < |starts| && starts[k] == i && ends[k] == j;
      assert s[k + 1] == i && e[k + 1] == j;
    }
  }

  lemma WordBefore(text: string, b: nat, p: nat, starts: seq<int>, ends: seq<int>, later: seq<string>)
    requires b < p < |text| && IsWord(text, b, p)
    requires ListsWords(text, p + 1, starts, ends) && AreTexts(later, text, starts, ends)
    ensures ListsWords(text, b, [b] + starts, [p] + ends)
    ensures AreTexts([text[b..p]] + later, text, [b] + starts, [p] + ends)
  {
    forall i, j | IsWord(text, i, j) && b <= i
      ensures IsListed([b] + starts, [p] + ends, i, j)
    {
      if i <= p {
        OnlyWordFrom(text, b, p, i, j);
      }
      ListedBehind(starts, ends, b, p, i, j);
    }
    FirstWordFits(text, b, p, starts, ends);
    FirstTextFits(text, b, p, starts, ends, later);
  }

  lemma FirstWordFits(text: string, b: nat, p: nat, starts: seq<int>, ends: seq<int>)
    requires IsWord(text, b, p) && AreWords(text, p + 1, starts, ends) && InOrder(starts, ends)
    ensures AreWords(text, b, [b] + starts, [p] + ends) && InOrder([b] + starts, [p] + ends)
  {
  }

  lemma FirstTextFits(text: string, b: nat, p: nat, starts: seq<int>, ends: seq<int>, later: seq<string>)
    requires b <= p <= |text| && AreTexts(later, text, starts, ends)
    ensures AreTexts([text[b..p]] + later, text, [b] + starts, [p] + ends)
  {
  }

  lemma NoWordBefore(text: string, p: nat, starts: seq<int>, ends: seq<int>)
    requires p < |text| && IsSeparator(text[p]) && ListsWords(text, p + 1, starts, ends)
    ensures ListsWords(text, p, starts, ends)
  {
    assert forall i, j :: IsWord(text, i, j) && p <= i ==> p + 1 <= i;
  }

  /** The tokens of a filter are exactly the words of its lower-cased text, in order; a missing or blank filter has
      none. */
  lemma TokensAreTheWords(optionFilter: Option<string>, lower: Lower) returns (starts: seq<int>, ends: seq<int>)
    ensures optionFilter.None? || Trim(optionFilter.value) == "" ==> Tokens(optionFilter, lower) == []
    ensures optionFilter.Some? && Trim(optionFilter.value) != "" ==>
      ListsWords(lower(optionFilter.value), 0, starts, ends)
      && AreTexts(Tokens(optionFilter, lower), lower(optionFilter.value), starts, ends)
  {
    starts, ends := [], [];
    if optionFilter.Some? && Trim(optionFilter.value) != "" {
      var text := lower(optionFilter.value);
      assert text[0..0] == "" && text[0..] == text;
      starts, ends := WordsFrom(text, 0, 0);
    }
  }

  /** The score is the number of tokens that occur in the text. */
  lemma {:induction false} ScoreCounts(text: string, tokens: seq<string>)
    ensures Score(text, tokens) == |set k | 0 <= k < |tokens| && Includes(text, tokens[k])|
  {
    if tokens != [] {
      var n := |tokens| - 1;
      var hits := set k | 0 <= k < |tokens| && Includes(text, tokens[k]);
      var before := set k | 0 <= k < |tokens[..n]| && Includes(text, tokens[..n][k]);
      ScoreCounts(text, tokens[..n]);
      assert hits == if Includes(text, tokens[n]) then before + {n} else before;
    }
  }

  /** The text that is scored holds every option's name and value, lower-cased together. */
  lemma {:induction false} OptionsAreInText(options: seq<OptionValue>, lower: Lower, k: nat)
    requires k < |options|
    ensures Includes(OptionsText(options, lower), lower(options[k].optionName + " " + options[k].value))
  {
    var n := |options| - 1;
    var one := lower(options[n].optionName + " " + options[n].value);
    var text := OptionsText(options, lower);
    if k == n {
      assert OccursAt(text, one, |text| - |one|);
    } else {
      var front, part := OptionsText(options[..n], lower), lower(options[k].optionName + " " + options[k].value);
      OptionsAreInText(options[..n], lower, k);
      var i :| 0 <= i <= |front| - |part| && OccursAt(front, part, i);
      assert text == front + " " + one;
      assert OccursAt(text, part, i);
    }
  }

  /** The preference in plain terms: within budget first, then available, then the number of tokens found. */
  lemma BetterMeans(a: Variant, b: Variant, wish: Wish, lower: Lower)
    ensures Better(a, b, wish, lower) <==>
      var cheapA := wish.maxPrice.Some? ==> a.priceAmount <= wish.maxPrice.value;
      var cheapB := wish.maxPrice.Some? ==> b.priceAmount <= wish.maxPrice.value;
      var stockA := a.status == Available && (a.isUnlimitedStock || a.stockQuantity > 0);
      var stockB := b.status == Available && (b.isUnlimitedStock || b.stockQuantity > 0);
      || (cheapA && !cheapB)
      || (cheapA == cheapB && stockA && !stockB)
      || (cheapA == cheapB && stockA == stockB
          && Score(OptionsText(a.optionValues, lower), wish.tokens)
             > Score(OptionsText(b.optionValues, lower), wish.tokens))
  {
  }
}
