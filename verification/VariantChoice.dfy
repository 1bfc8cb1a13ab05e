/** Choosing the one variant of a product to show for a chat search.

    `lower` stands for lower-casing; prices are exact. */
module VariantChoice {
  import opened Options
  import opened Catalogue
  import opened Whitespace

  datatype OptionValue = OptionValue(optionName: string, value: string)

  datatype Variant = Variant(
    externalId: string, status: Status, priceAmount: real, regularPriceAmount: Option<real>,
    isUnlimitedStock: bool, stockQuantity: int, optionValues: seq<OptionValue>)

  /** What the shopper asked for: a budget and the words of the option filter. */
  datatype Wish = Wish(maxPrice: Option<real>, tokens: seq<string>)

  type Lower = string -> string

  predicate IsAvailable(status: Status, isUnlimitedStock: bool, stockQuantity: int) {
    status == Available && (isUnlimitedStock || stockQuantity > 0)
  }

  predicate InStock(variant: Variant) {
    IsAvailable(variant.status, variant.isUnlimitedStock, variant.stockQuantity)
  }

  predicate WithinBudget(variant: Variant, maxPrice: Option<real>) {
    maxPrice.None? || variant.priceAmount <= maxPrice.value
  }

  predicate IsSeparator(c: char) {
    IsSpace(c) || c in ",/|-"
  }

  /** The maximal runs of non-separators, in order; `word` is the run being read. */
  function WordsAfter(word: string, text: string): seq<string>
    decreases text
  {
    var flushed := if word == "" then [] else [word];
    if text == "" then flushed
    else if IsSeparator(text[0]) then flushed + WordsAfter("", text[1..])
    else WordsAfter(word + [text[0]], text[1..])
  }

  function Tokens(optionFilter: Option<string>, lower: Lower): seq<string> {
    match optionFilter
    case None => []
    case Some(text) => if IsBlank(text) then [] else WordsAfter("", lower(text))
  }

  function OptionsText(options: seq<OptionValue>, lower: Lower): string {
    if options == [] then ""
    else
      var n := |options| - 1;
      var one := lower(options[n].optionName + " " + options[n].value);
      if n == 0 then one else OptionsText(options[..n], lower) + " " + one
  }

  predicate OccursAt(text: string, token: string, i: nat)
    requires i + |token| <= |text|
  {
    text[i..i + |token|] == token
  }

  predicate Includes(text: string, token: string) {
    exists i :: 0 <= i <= |text| - |token| && OccursAt(text, token, i)
  }

  /** How many of the tokens occur in the text; a repeated token counts each time. */
  function Score(text: string, tokens: seq<string>): nat {
    if tokens == [] then 0
    else
      var n := |tokens| - 1;
      Score(text, tokens[..n]) + if Includes(text, tokens[n]) then 1 else 0
  }

  function Matches(variant: Variant, wish: Wish, lower: Lower): nat {
    Score(OptionsText(variant.optionValues, lower), wish.tokens)
  }

  /** The declarative preference: budget first, then stock, then matching words. */
  predicate Better(a: Variant, b: Variant, wish: Wish, lower: Lower) {
    if WithinBudget(a, wish.maxPrice) != WithinBudget(b, wish.maxPrice) then WithinBudget(a, wish.maxPrice)
    else if InStock(a) != InStock(b) then InStock(a)
    else Matches(a, wish, lower) > Matches(b, wish, lower)
  }

  /** Nothing in the list is better than the variant at `i`, and everything before it is worse. */
  ghost predicate IsEarliestBest(variants: seq<Variant>, i: nat, wish: Wish, lower: Lower)
    requires i < |variants|
  {
    && (forall j :: 0 <= j < |variants| ==> !Better(variants[j], variants[i], wish, lower))
    && (forall j :: 0 <= j < i ==> Better(variants[i], variants[j], wish, lower))
  }

  /** Where that variant is. */
  function BestIndex(variants: seq<Variant>, wish: Wish, lower: Lower): (i: nat)
    requires variants != []
    ensures i < |variants|
  {
    var n := |variants| - 1;
    if n == 0 then 0
    else
      var i := BestIndex(variants[..n], wish, lower);
      if Better(variants[n], variants[i], wish, lower) then n else i
  }

  function Best(variants: seq<Variant>, wish: Wish, lower: Lower): Variant
    requires variants != []
  {
    variants[BestIndex(variants, wish, lower)]
  }

  lemma {:induction false} BestIsEarliest(variants: seq<Variant>, wish: Wish, lower: Lower)
    requires variants != []
    ensures IsEarliestBest(variants, BestIndex(variants, wish, lower), wish, lower)
  {
    var n := |variants| - 1;
    if n > 0 {
      var front := variants[..n];
      BestIsEarliest(front, wish, lower);
      forall j | 0 <= j < n
        ensures !Better(front[j], front[BestIndex(front, wish, lower)], wish, lower)
        ensures front[j] == variants[j]
      {
      }
    }
  }

  /** There is only one such place. */
  lemma EarliestBestExactly(variants: seq<Variant>, i: nat, wish: Wish, lower: Lower)
    requires i < |variants|
    ensures IsEarliestBest(variants, i, wish, lower) <==> i == BestIndex(variants, wish, lower)
  {
    var best := BestIndex(variants, wish, lower);
    BestIsEarliest(variants, wish, lower);
    assert i < best ==> Better(variants[best], variants[i], wish, lower);
    assert best < i ==> !Better(variants[i], variants[best], wish, lower);
  }

  lemma BetterIsAsymmetric(a: Variant, b: Variant, wish: Wish, lower: Lower)
    requires Better(a, b, wish, lower)
    ensures !Better(b, a, wish, lower)
  {
  }

  // ---- Filtering ----

  function Where(variants: seq<Variant>, keep: Variant -> bool): (kept: seq<Variant>)
    ensures forall v :: v in kept <==> v in variants && keep(v)
  {
    if variants == [] then []
    else
      var n := |variants| - 1;
      var kept := Where(variants[..n], keep);
      if keep(variants[n]) then kept + [variants[n]] else kept
  }

  lemma WhereOneMore(front: seq<Variant>, last: Variant, keep: Variant -> bool)
    ensures Where(front + [last], keep) == if keep(last) then Where(front, keep) + [last] else Where(front, keep)
  {
    assert (front + [last])[..|front|] == front;
  }

  lemma BestOneMore(front: seq<Variant>, last: Variant, wish: Wish, lower: Lower)
    requires front != []
    ensures Best(front + [last], wish, lower)
         == if Better(last, Best(front, wish, lower), wish, lower) then last else Best(front, wish, lower)
  {
    assert (front + [last])[..|front|] == front;
  }

  /** A filter that keeps something, and whose kept variants beat the dropped ones, does not change the choice. */
  lemma {:induction false} FilteringKeepsBest(
    variants: seq<Variant>, keep: Variant -> bool, wish: Wish, lower: Lower)
    requires Where(variants, keep) != []
    requires forall a, b :: a in variants && b in variants && keep(a) && !keep(b) ==> Better(a, b, wish, lower)
    ensures variants != []
    ensures Best(variants, wish, lower) == Best(Where(variants, keep), wish, lower)
  {
    var n := |variants| - 1;
    var front, last := variants[..n], variants[n];
    var kept := Where(front, keep);
    assert variants == front + [last];
    WhereOneMore(front, last, keep);
    if n == 0 {
      return;
    }
    var best := Best(front, wish, lower);
    assert best in front && best in variants && last in variants;
    BestOneMore(front, last, wish, lower);
    if kept == [] {
      assert best !in kept;
      assert Where(variants, keep) == [last] && Better(last, best, wish, lower);
    } else {
      FilteringKeepsBest(front, keep, wish, lower);
      assert best in kept;
      if keep(last) {
        BestOneMore(kept, last, wish, lower);
      } else {
        BetterIsAsymmetric(best, last, wish, lower);
      }
    }
  }

  method Filter(variants: seq<Variant>, keep: Variant -> bool) returns (kept: seq<Variant>)
    ensures kept == Where(variants, keep)
  {
    kept := [];
    for i := 0 to |variants|
      invariant kept == Where(variants[..i], keep)
    {
      assert variants[..i + 1] == variants[..i] + [variants[i]];
      WhereOneMore(variants[..i], variants[i], keep);
      if keep(variants[i]) {
        kept := kept + [variants[i]];
      }
    }
    assert variants[..|variants|] == variants;
  }

  /** The two filters with their fallbacks leave a pool with the same best, all alike in budget and stock. */
  lemma PoolKeepsBest(variants: seq<Variant>, base: seq<Variant>, pool: seq<Variant>, wish: Wish, lower: Lower)
    requires variants != []
    requires var cheap := Where(variants, v => WithinBudget(v, wish.maxPrice));
      base == if cheap != [] then cheap else variants
    requires var inStock := Where(base, InStock); pool == if inStock != [] then inStock else base
    ensures pool != [] && Best(pool, wish, lower) == Best(variants, wish, lower)
    ensures forall a, b :: a in pool && b in pool ==>
      WithinBudget(a, wish.maxPrice) == WithinBudget(b, wish.maxPrice) && InStock(a) == InStock(b)
  {
    var cheap := Where(variants, v => WithinBudget(v, wish.maxPrice));
    var inStock := Where(base, InStock);
    if cheap != [] {
      FilteringKeepsBest(variants, v => WithinBudget(v, wish.maxPrice), wish, lower);
    } else {
      assert forall v :: v in variants ==> v !in cheap;
    }
    if inStock != [] {
      FilteringKeepsBest(base, InStock, wish, lower);
    } else {
      assert forall v :: v in base ==> v !in inStock;
    }
  }

  /** Among variants alike in budget and stock, keeping the first highest score is keeping the best. */
  method HighestScore(pool: seq<Variant>, wish: Wish, lower: Lower) returns (bestVariant: Variant)
    requires pool != []
    requires forall a, b :: a in pool && b in pool ==>
      WithinBudget(a, wish.maxPrice) == WithinBudget(b, wish.maxPrice) && InStock(a) == InStock(b)
    ensures bestVariant == Best(pool, wish, lower)
  {
    bestVariant := pool[0];
    var highestMatchScore := -1;
    for k := 0 to |pool|
      invariant k == 0 ==> highestMatchScore == -1
      invariant k > 0 ==>
        bestVariant == Best(pool[..k], wish, lower) && highestMatchScore == Matches(bestVariant, wish, lower)
    {
      var variant := pool[k];
      var variantOptionsText := OptionsText(variant.optionValues, lower);
      var score := 0;
      for t := 0 to |wish.tokens|
        invariant score == Score(variantOptionsText, wish.tokens[..t])
      {
        assert wish.tokens[..t + 1][..t] == wish.tokens[..t];
        if Includes(variantOptionsText, wish.tokens[t]) {
          score := score + 1;
        }
      }
      assert wish.tokens[..|wish.tokens|] == wish.tokens;
      assert pool[..k + 1] == pool[..k] + [variant];
      if k > 0 {
        assert bestVariant in pool[..k] && bestVariant in pool && variant in pool;
        BestOneMore(pool[..k], variant, wish, lower);
      }
      if score > highestMatchScore {
        highestMatchScore := score;
        bestVariant := variant;
      }
    }
    assert pool[..|pool|] == pool;
  }

  lemma WithoutTokensFirstIsBest(pool: seq<Variant>, wish: Wish, lower: Lower)
    requires pool != [] && wish.tokens == []
    requires forall a, b :: a in pool && b in pool ==>
      WithinBudget(a, wish.maxPrice) == WithinBudget(b, wish.maxPrice) && InStock(a) == InStock(b)
    ensures Best(pool, wish, lower) == pool[0]
  {
    assert IsEarliestBest(pool, 0, wish, lower);
    EarliestBestExactly(pool, 0, wish, lower);
  }

  /** The filter-fallback-score algorithm picks the declarative best, for every list, filter and budget. */
  method PickBestVariant(variants: seq<Variant>, optionFilter: Option<string>, maxPrice: Option<real>, lower: Lower)
    returns (chosen: Option<Variant>)
    ensures chosen.None? <==> variants == []
    ensures chosen.Some? ==> chosen.value == Best(variants, Wish(maxPrice, Tokens(optionFilter, lower)), lower)
  {
    if variants == [] {
      return None;
    }
    ghost var wish := Wish(maxPrice, Tokens(optionFilter, lower));
    var priceFiltered := Filter(variants, v => WithinBudget(v, maxPrice));
    var baseVariants := if priceFiltered != [] then priceFiltered else variants;
    var availableVariants := Filter(baseVariants, InStock);
    var pool := if availableVariants != [] then availableVariants else baseVariants;
    PoolKeepsBest(variants, baseVariants, pool, wish, lower);
    if optionFilter.None? || IsBlank(optionFilter.value) {
      WithoutTokensFirstIsBest(pool, wish, lower);
      return Some(pool[0]);
    }
    var filterTokens := WordsAfter("", lower(optionFilter.value));
    var best := HighestScore(pool, Wish(maxPrice, filterTokens), lower);
    chosen := Some(best);
  }
}
