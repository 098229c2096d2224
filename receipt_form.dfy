/**
 * The receipt form's bookkeeping: the per-biller receipt counter kept in the
 * preferences, the autocomplete filters for the biller and volunteer fields,
 * the amount field's character filter and the form's validity.
 */
module ReceiptForm {
  import opened Json
  import opened Strings

  /** At most this many suggestions are offered. */
  const SUGGESTION_LIMIT := 5

  /** `a` is `b` with some elements left out, the rest kept in order. */
  predicate IsSubsequence<T(==)>(a: seq<T>, b: seq<T>)
    decreases |b|
  {
    if a == [] then true
    else if b == [] then false
    else (a[0] == b[0] && IsSubsequence(a[1..], b[1..])) || IsSubsequence(a, b[1..])
  }

  /** Every prefix of a subsequence is a subsequence. */
  lemma {:induction false} PrefixIsSubsequence<T>(a: seq<T>, b: seq<T>, k: nat)
    requires IsSubsequence(a, b) && k <= |a|
    ensures IsSubsequence(a[..k], b)
    decreases |b|
  {
    if k == 0 || a == [] {
      assert a[..k] == [];
    } else if a[0] == b[0] && IsSubsequence(a[1..], b[1..]) {
      PrefixIsSubsequence(a[1..], b[1..], k - 1);
      assert a[..k][0] == b[0] && a[..k][1..] == a[1..][..k - 1];
    } else {
      PrefixIsSubsequence(a, b[1..], k);
    }
  }

  // ----- Per-biller receipt counter -----

  /** The count stored in the biller's preferences, 0 when none is. */
  function StoredCount(counts: map<string, int32>, billerName: string): int32 {
    if billerName in counts then counts[billerName] else 0
  }

  /** getNextReceiptNumber: one more than the stored count, in 32-bit arithmetic. */
  function NextReceiptNumber(counts: map<string, int32>, billerName: string): (n: int32)
    ensures billerName !in counts ==> n == 1
    ensures StoredCount(counts, billerName) < 0x7FFF_FFFF ==> n == StoredCount(counts, billerName) + 1
    ensures StoredCount(counts, billerName) == 0x7FFF_FFFF ==> n == -0x8000_0000
  {
    Wrap32(StoredCount(counts, billerName) + 1)
  }

  /** The numbers `k` successive receipts of one biller get, each saved before the next is drawn. */
  function Numbering(counts: map<string, int32>, billerName: string, k: nat): (ns: seq<int32>)
    ensures |ns| == k
    decreases k
  {
    if k == 0 then []
    else
      var n := NextReceiptNumber(counts, billerName);
      [n] + Numbering(counts[billerName := n], billerName, k - 1)
  }

  /** A biller's receipts continue the stored count: c + 1, c + 2, and so on. */
  lemma {:induction false} NumberingContinues(counts: map<string, int32>, billerName: string, k: nat)
    requires StoredCount(counts, billerName) as int + k < 0x8000_0000
    ensures forall i :: 0 <= i < k ==> Numbering(counts, billerName, k)[i] == StoredCount(counts, billerName) as int + i + 1
    decreases k
  {
    if k > 0 {
      var n := NextReceiptNumber(counts, billerName);
      var rest := counts[billerName := n];
      assert StoredCount(rest, billerName) == n == StoredCount(counts, billerName) + 1;
      NumberingContinues(rest, billerName, k - 1);
      var ns := Numbering(counts, billerName, k);
      assert ns == [n] + Numbering(rest, billerName, k - 1);
      forall i | 0 <= i < k
        ensures ns[i] == StoredCount(counts, billerName) as int + i + 1
      {
        if i > 0 {
          assert ns[i] == Numbering(rest, billerName, k - 1)[i - 1];
        }
      }
    }
  }

  /** A new biller, or one whose receipts were deleted, numbers its receipts 1, 2, 3, ... */
  lemma NumberingFromZero(counts: map<string, int32>, billerName: string, k: nat)
    requires StoredCount(counts, billerName) == 0 && k < 0x8000_0000
    ensures forall i :: 0 <= i < k ==> Numbering(counts, billerName, k)[i] == i + 1
  {
    NumberingContinues(counts, billerName, k);
  }

  /** The stored receipt counts, one per biller name. */
  class BillerCounters {
    var receiptCounts: map<string, int32>

    constructor (receiptCounts: map<string, int32>)
      ensures this.receiptCounts == receiptCounts
    {
      this.receiptCounts := receiptCounts;
    }

    /** saveBillerData: the receipt's number becomes the biller's count. */
    method SaveBillerData(billerName: string, receiptNum: int32)
      modifies this
      ensures receiptCounts == old(receiptCounts)[billerName := receiptNum]
    {
      receiptCounts := receiptCounts[billerName := receiptNum];
    }

    /**
     * Creating a receipt: a non-blank biller draws the next number, otherwise
     * the form's previous number is kept; either way it is saved as the count.
     */
    method CreateReceiptNumber(billerName: string, receiptNumber: int32) returns (number: int32)
      modifies this
      ensures number == if IsBlank(billerName) then receiptNumber else NextReceiptNumber(old(receiptCounts), billerName)
      ensures receiptCounts == old(receiptCounts)[billerName := number]
      ensures !IsBlank(billerName) ==> NextReceiptNumber(receiptCounts, billerName) == Wrap32(number as int + 1)
    {
      number := receiptNumber;
      if !IsBlank(billerName) {
        number := NextReceiptNumber(receiptCounts, billerName);
      }
      SaveBillerData(billerName, number);
    }

    /** Deleting a biller resets its count, so its next receipt is number 1. */
    method ResetBiller(billerName: string)
      modifies this
      ensures receiptCounts == old(receiptCounts)[billerName := 0]
      ensures StoredCount(receiptCounts, billerName) == 0 && NextReceiptNumber(receiptCounts, billerName) == 1
    {
      receiptCounts := receiptCounts[billerName := 0];
    }
  }

  // ----- Autocomplete -----

  /** A suggestion is offered when it contains the input, ignoring case, and is not the input itself. */
  predicate Suggests(input: string, suggestion: string) {
    ContainsIgnoreCase(suggestion, input) && suggestion != input
  }

  /** Kotlin `filter` with that condition: the offered suggestions in list order. */
  function Matching(input: string, suggestions: seq<string>): (r: seq<string>)
    ensures IsSubsequence(r, suggestions)
    ensures forall x :: x in r <==> x in suggestions && Suggests(input, x)
  {
    if suggestions == [] then []
    else
      var rest := Matching(input, suggestions[1..]);
      if Suggests(input, suggestions[0]) then
        assert ([suggestions[0]] + rest)[1..] == rest;
        [suggestions[0]] + rest
      else rest
  }

  /**
   * filteredBillerSuggestions / filteredVolunteerSuggestions: nothing for an
   * empty input, otherwise the first five offered suggestions.
   */
  function FilterSuggestions(input: string, suggestions: seq<string>): (r: seq<string>)
    ensures input == [] ==> r == []
    ensures |r| <= SUGGESTION_LIMIT
    ensures IsSubsequence(r, suggestions)
    ensures forall x :: x in r ==> x in suggestions && Suggests(input, x)
    ensures input != [] && |r| < SUGGESTION_LIMIT ==>
      forall x :: x in suggestions && Suggests(input, x) ==> x in r
  {
    if input == [] then []
    else
      var m := Matching(input, suggestions);
      if |m| <= SUGGESTION_LIMIT then m
      else
        PrefixIsSubsequence(m, suggestions, SUGGESTION_LIMIT);
        m[..SUGGESTION_LIMIT]
  }

  /** showBillerSuggestions / showVolunteerSuggestions, as set when the field changes. */
  predicate ShowSuggestions(input: string, suggestions: seq<string>)
    ensures ShowSuggestions(input, suggestions) ==> input != [] && suggestions != []
    ensures !ShowSuggestions(input, suggestions) ==> FilterSuggestions(input, suggestions) == []
  {
    var offered := FilterSuggestions(input, suggestions);
    assert offered != [] ==> input != [] && offered[0] in suggestions && ContainsIgnoreCase(offered[0], input) by {
      if offered != [] {
        assert offered[0] in offered;
      }
    }
    input != [] && exists s :: s in suggestions && ContainsIgnoreCase(s, input)
  }

  /** The popup appears exactly when the input is non-empty and some suggestion is offered for it. */
  lemma PopupShownIff(input: string, suggestions: seq<string>)
    ensures ShowSuggestions(input, suggestions) && FilterSuggestions(input, suggestions) != []
      <==> input != [] && exists x :: x in suggestions && Suggests(input, x)
  {
    if input != [] && exists x :: x in suggestions && Suggests(input, x) {
      var x :| x in suggestions && Suggests(input, x);
      assert x in FilterSuggestions(input, suggestions) || |FilterSuggestions(input, suggestions)| == SUGGESTION_LIMIT;
    }
    if ShowSuggestions(input, suggestions) && FilterSuggestions(input, suggestions) != [] {
      var x := FilterSuggestions(input, suggestions)[0];
      assert x in suggestions && Suggests(input, x);
    }
  }

  /** Typing a suggestion exactly sets the flag but offers nothing, so no popup is drawn. */
  lemma ExactInputOffersNothing(input: string)
    requires input != []
    ensures ShowSuggestions(input, [input])
    ensures FilterSuggestions(input, [input]) == []
  {
    var low := ToLower(input);
    assert low[..|low|] == low;
    assert ContainsIgnoreCase(input, input);
  }

  // ----- Amount field -----

  /** The characters the amount field accepts. */
  predicate AmountChar(c: char) {
    IsDecimalDigit(c) || c == '.'
  }

  /** The amount field's input filter: the accepted characters of the typed text, in order. */
  function FilterAmount(s: string): (r: string)
    ensures forall i :: 0 <= i < |r| ==> AmountChar(r[i])
    ensures IsSubsequence(r, s)
  {
    if s == [] then []
    else
      var rest := FilterAmount(s[1..]);
      if AmountChar(s[0]) then
        assert ([s[0]] + rest)[1..] == rest;
        [s[0]] + rest
      else rest
  }

  /** Text made only of accepted characters passes the filter unchanged. */
  lemma {:induction false} FilterAmountKeepsAccepted(s: string)
    requires forall i :: 0 <= i < |s| ==> AmountChar(s[i])
    ensures FilterAmount(s) == s
  {
    if s != [] {
      FilterAmountKeepsAccepted(s[1..]);
      assert [s[0]] + s[1..] == s;
    }
  }

  /** The filter works character by character: it distributes over concatenation. */
  lemma {:induction false} FilterAmountAppend(a: string, b: string)
    ensures FilterAmount(a + b) == FilterAmount(a) + FilterAmount(b)
  {
    if a != [] {
      assert (a + b)[0] == a[0] && (a + b)[1..] == a[1..] + b;
      FilterAmountAppend(a[1..], b);
    } else {
      assert a + b == b;
    }
  }

  /** Filtering the filtered text changes nothing more. */
  lemma FilterAmountIdempotent(s: string)
    ensures FilterAmount(FilterAmount(s)) == FilterAmount(s)
  {
    FilterAmountKeepsAccepted(FilterAmount(s));
  }

  // ----- Form validity -----

  /** isFormValid: biller, volunteer and amount each hold a non-whitespace character. */
  predicate IsFormValid(biller: string, volunteer: string, amount: string)
    ensures IsFormValid(biller, volunteer, amount) <==>
      && (exists i :: 0 <= i < |biller| && !IsWhitespace(biller[i]))
      && (exists i :: 0 <= i < |volunteer| && !IsWhitespace(volunteer[i]))
      && (exists i :: 0 <= i < |amount| && !IsWhitespace(amount[i]))
  {
    !IsBlank(biller) && !IsBlank(volunteer) && !IsBlank(amount)
  }

  /** An amount that went through the filter is blank only when it is empty. */
  lemma FilteredAmountBlankIffEmpty(typed: string)
    ensures IsBlank(FilterAmount(typed)) <==> FilterAmount(typed) == []
  {
    var a := FilterAmount(typed);
    if a != [] {
      assert AmountChar(a[0]) && !IsWhitespace(a[0]);
    }
  }

  /** With the amount typed through the filter, the form is valid when the amount is merely non-empty. */
  lemma ValidFormWithFilteredAmount(biller: string, volunteer: string, typed: string)
    ensures IsFormValid(biller, volunteer, FilterAmount(typed))
      <==> !IsBlank(biller) && !IsBlank(volunteer) && FilterAmount(typed) != []
  {
    FilteredAmountBlankIffEmpty(typed);
  }
}
