/**
 * `BankDataLoader._extract_pincode`: the first standalone run of six digits
 * in an address, i.e. the leftmost match of the regular expression
 * `\b\d{6}\b`.
 */
module Pincode {
  import opened Wrappers
  import opened Cells
  import opened PyStr

  /** `\b\d{6}\b` matches `s` at position `i`. */
  predicate MatchAt(s: string, i: int) {
    0 <= i && i + 6 <= |s|
    && (forall k :: i <= k < i + 6 ==> IsDigit(s[k]))
    && (i == 0 || !IsWordChar(s[i - 1]))
    && (i + 6 == |s| || !IsWordChar(s[i + 6]))
  }

  /** `re.search` from position `from`: the leftmost match at or after it. */
  function SearchFrom(s: string, from: nat): (r: Option<nat>)
    requires from <= |s|
    ensures r.Some? ==> from <= r.value && MatchAt(s, r.value)
    ensures r.Some? ==> forall j :: from <= j < r.value ==> !MatchAt(s, j)
    ensures r.None? ==> forall j :: from <= j ==> !MatchAt(s, j)
    decreases |s| - from
  {
    if from + 6 > |s| then None
    else if MatchAt(s, from) then Some(from)
    else SearchFrom(s, from + 1)
  }

  /** `str(address)` for an address that is not missing. */
  function AddressText(address: Cell, show: real -> string): string
    requires !address.IsNA()
  {
    Stringify(address, show)
  }

  /**
   * None for a missing address; otherwise the leftmost standalone run of six
   * digits, or None when there is none.
   */
  function ExtractPincode(address: Cell, show: real -> string): (r: Option<string>)
    ensures address.IsNA() ==> r.None?
    ensures !address.IsNA() && r.None? ==>
      forall j :: !MatchAt(AddressText(address, show), j)
    ensures r.Some? ==> (!address.IsNA() &&
      var s := AddressText(address, show);
      exists i :: MatchAt(s, i) && s[i..i + 6] == r.value
              && forall j :: 0 <= j < i ==> !MatchAt(s, j))
    ensures r.Some? ==> |r.value| == 6 && forall k :: 0 <= k < 6 ==> IsDigit(r.value[k])
  {
    if address.IsNA() then None
    else
      var s := AddressText(address, show);
      match SearchFrom(s, 0)
      case None => None
      case Some(i) =>
        assert MatchAt(s, i) && forall j :: 0 <= j < i ==> !MatchAt(s, j);
        Some(s[i..i + 6])
  }

  /** The cell `df['Address'].apply(_extract_pincode)` stores: the code as text, or None. */
  function PincodeCell(address: Cell, show: real -> string): (r: Cell)
    ensures r.Text? || r.Null?
  {
    match ExtractPincode(address, show)
    case Some(p) => Text(p)
    case None => Null
  }

  /** A six-digit code followed by a letter, or preceded by a digit, is not a match. */
  lemma WordBoundaryNeeded()
    ensures ExtractPincode(Text("560001A"), _ => "") == None
    ensures ExtractPincode(Text("1560001"), _ => "") == None
    ensures ExtractPincode(Text("Road 7, Pune 411001"), _ => "") == Some("411001")
  {
    var a := "560001A";
    forall j ensures !MatchAt(a, j) {
      if j == 0 { assert IsWordChar(a[6]); }
    }
    var b := "1560001";
    forall j ensures !MatchAt(b, j) {
      if j == 0 { assert IsDigit(b[6]); }
    }
    var c := "Road 7, Pune 411001";
    assert MatchAt(c, 13);
    forall j | 0 <= j < 13 ensures !MatchAt(c, j) {
      if j == 0 {
        assert !IsDigit(c[0]);
      } else if j <= 6 {
        assert !IsDigit(c[6]);
      } else {
        assert !IsDigit(c[12]);
      }
    }
    assert c[13..19] == "411001";
  }
}
