/** Text helpers: ASCII lower-casing (standing in for `String.prototype.toLowerCase`),
    substring search (`String.prototype.includes`), decimal rendering of a count
    (`Number.prototype.toString`), left padding (`String.prototype.padStart`) and
    the serial record ids built from them (`PO-004`, `T006`). */
module Text {

  /** Lower-cases an ASCII capital letter and keeps every other character. */
  function LowerChar(c: char): (r: char)
    ensures !('A' <= r <= 'Z')
    ensures 'A' <= c <= 'Z' ==> 'a' <= r <= 'z' && r as int - 'a' as int == c as int - 'A' as int
    ensures !('A' <= c <= 'Z') ==> r == c
  {
    if 'A' <= c <= 'Z' then (c as int + 32) as char else c
  }

  /** Lower-cases a string character by character. */
  function ToLower(s: string): (r: string)
    ensures |r| == |s|
    ensures forall i :: 0 <= i < |s| ==> r[i] == LowerChar(s[i])
  {
    seq(|s|, i requires 0 <= i < |s| => LowerChar(s[i]))
  }

  /** `needle` stands in `hay` starting at index `i`. */
  ghost predicate OccursAt(hay: string, needle: string, i: int)
  {
    0 <= i && i + |needle| <= |hay| && hay[i..i + |needle|] == needle
  }

  /** Substring search: true exactly when `needle` occurs somewhere in `hay`. */
  function Includes(hay: string, needle: string): (r: bool)
    ensures r <==> exists i :: OccursAt(hay, needle, i)
    decreases |hay|
  {
    if |needle| <= |hay| && hay[..|needle|] == needle then
      assert OccursAt(hay, needle, 0);
      true
    else if hay == [] then
      assert forall i :: !OccursAt(hay, needle, i);
      false
    else
      var r := Includes(hay[1..], needle);
      assert forall i :: 0 <= i && OccursAt(hay[1..], needle, i) ==> OccursAt(hay, needle, i + 1) by {
        forall i | 0 <= i && OccursAt(hay[1..], needle, i) ensures OccursAt(hay, needle, i + 1) {
          assert hay[1..][i..i + |needle|] == hay[i + 1..i + 1 + |needle|];
        }
      }
      assert forall i :: OccursAt(hay, needle, i) ==> i > 0 && OccursAt(hay[1..], needle, i - 1) by {
        forall i | OccursAt(hay, needle, i) ensures i > 0 && OccursAt(hay[1..], needle, i - 1) {
          assert hay[1..][i - 1..i - 1 + |needle|] == hay[i..i + |needle|];
        }
      }
      r
  }

  /** The empty string occurs in every string, so an empty search matches all. */
  lemma IncludesEmpty(hay: string)
    ensures Includes(hay, "")
  {
    assert OccursAt(hay, "", 0);
  }

  /** Case-insensitive containment as the pages and comboboxes test it. */
  function MatchesIgnoringCase(text: string, query: string): (b: bool)
    ensures b <==> exists i :: OccursAt(ToLower(text), ToLower(query), i)
    ensures query == "" ==> b
  {
    assert query == "" ==> OccursAt(ToLower(text), ToLower(query), 0);
    Includes(ToLower(text), ToLower(query))
  }

  // ---------------------------------------------------------------------
  // Decimal rendering and zero padding

  predicate IsDigit(c: char)
  {
    '0' <= c <= '9'
  }

  predicate AllDigits(s: string)
  {
    forall i :: 0 <= i < |s| ==> IsDigit(s[i])
  }

  function DigitChar(d: nat): (c: char)
    requires d < 10
    ensures IsDigit(c) && c as int - '0' as int == d
  {
    ('0' as int + d) as char
  }

  function DigitValue(c: char): nat
    requires IsDigit(c)
  {
    c as int - '0' as int
  }

  /** The decimal digits of `n`, most significant first, without leading zeros. */
  function NatToDecimal(n: nat): (s: string)
    ensures |s| >= 1 && AllDigits(s)
    decreases n
  {
    if n < 10 then [DigitChar(n)] else NatToDecimal(n / 10) + [DigitChar(n % 10)]
  }

  /** The number a string of decimal digits denotes (leading zeros allowed). */
  function DecimalValue(s: string): nat
    requires AllDigits(s)
    decreases |s|
  {
    if s == [] then 0 else DecimalValue(s[..|s| - 1]) * 10 + DigitValue(s[|s| - 1])
  }

  lemma {:induction false} DecimalRoundTrip(n: nat)
    ensures DecimalValue(NatToDecimal(n)) == n
    decreases n
  {
    if n >= 10 {
      var s := NatToDecimal(n);
      assert s[..|s| - 1] == NatToDecimal(n / 10);
      DecimalRoundTrip(n / 10);
    }
  }

  /** `s` padded on the left with `fill` up to `width` characters. */
  function PadStart(s: string, width: nat, fill: char): (r: string)
    ensures |r| == if |s| >= width then |s| else width
    ensures r[|r| - |s|..] == s
    ensures forall i :: 0 <= i < |r| - |s| ==> r[i] == fill
  {
    if |s| >= width then s else seq(width - |s|, _ => fill) + s
  }

  lemma {:induction false} LeadingZeros(z: string, s: string)
    requires forall i :: 0 <= i < |z| ==> z[i] == '0'
    requires AllDigits(s)
    ensures AllDigits(z + s) && DecimalValue(z + s) == DecimalValue(s)
    decreases |s|
  {
    if s == [] {
      assert z + s == z;
      ZerosValue(z);
    } else {
      var t := z + s;
      assert t[..|t| - 1] == z + s[..|s| - 1];
      LeadingZeros(z, s[..|s| - 1]);
    }
  }

  lemma {:induction false} ZerosValue(z: string)
    requires forall i :: 0 <= i < |z| ==> z[i] == '0'
    ensures AllDigits(z) && DecimalValue(z) == 0
    decreases |z|
  {
    if z != [] {
      ZerosValue(z[..|z| - 1]);
    }
  }

  /** `n` in decimal, zero-padded to at least three digits. */
  function Serial3(n: nat): (s: string)
    ensures AllDigits(s) && |s| >= 3
  {
    PadStart(NatToDecimal(n), 3, '0')
  }

  /** The padded rendering still denotes `n`, so it can be read back. */
  lemma Serial3Value(n: nat)
    ensures DecimalValue(Serial3(n)) == n
  {
    var d := NatToDecimal(n);
    var r := Serial3(n);
    var z := r[..|r| - |d|];
    assert r == z + d;
    LeadingZeros(z, d);
    DecimalRoundTrip(n);
  }

  /** A one-digit serial is written with two leading zeros. */
  lemma SmallSerial(prefix: string, n: nat)
    requires n < 10
    ensures SerialId(prefix, n) == prefix + ['0', '0', DigitChar(n)]
  {
    assert NatToDecimal(n) == [DigitChar(n)];
    assert Serial3(n) == ['0', '0', DigitChar(n)];
  }

  /** A record id: a fixed prefix followed by a three-digit serial number. */
  function SerialId(prefix: string, n: nat): (id: string)
    ensures |id| >= |prefix| + 3 && id[..|prefix|] == prefix
  {
    prefix + Serial3(n)
  }

  /** Distinct serial numbers give distinct ids. */
  lemma SerialIdInjective(prefix: string, a: nat, b: nat)
    ensures SerialId(prefix, a) == SerialId(prefix, b) <==> a == b
  {
    if SerialId(prefix, a) == SerialId(prefix, b) {
      assert Serial3(a) == SerialId(prefix, a)[|prefix|..];
      assert Serial3(b) == SerialId(prefix, b)[|prefix|..];
      Serial3Value(a);
      Serial3Value(b);
    }
  }

  // ---------------------------------------------------------------------
  // Lists whose ids are serial numbers handed out as `length + 1`

  /** `ids[i]` is `prefix` followed by the serial `serials[i]`; the serials are
      pairwise distinct and lie in 1..|ids|. This is what handing out
      `length + 1` on every prepend guarantees. */
  ghost predicate SerialNumbered(ids: seq<string>, prefix: string, serials: seq<nat>)
  {
    && |serials| == |ids|
    && (forall i :: 0 <= i < |ids| ==> 1 <= serials[i] <= |ids| && ids[i] == SerialId(prefix, serials[i]))
    && (forall i, j :: 0 <= i < j < |serials| ==> serials[i] != serials[j])
  }

  /** A list whose i-th id carries the one-digit serial `i + 1` is serially
      numbered. */
  lemma CountingUpNumbered(ids: seq<string>, prefix: string, serials: seq<nat>)
    requires |serials| == |ids| < 10
    requires forall i :: 0 <= i < |ids| ==> serials[i] == i + 1
    requires forall i :: 0 <= i < |ids| ==> ids[i] == prefix + ['0', '0', DigitChar(i + 1)]
    ensures SerialNumbered(ids, prefix, serials)
  {
    forall i | 0 <= i < |ids| ensures ids[i] == SerialId(prefix, serials[i]) {
      SmallSerial(prefix, i + 1);
    }
  }

  ghost predicate PairwiseDistinct(ids: seq<string>)
  {
    forall i, j :: 0 <= i < j < |ids| ==> ids[i] != ids[j]
  }

  /** Serially numbered ids never collide. */
  lemma SerialNumberedDistinct(ids: seq<string>, prefix: string, serials: seq<nat>)
    requires SerialNumbered(ids, prefix, serials)
    ensures PairwiseDistinct(ids)
  {
    forall i, j | 0 <= i < j < |ids| ensures ids[i] != ids[j] {
      SerialIdInjective(prefix, serials[i], serials[j]);
    }
  }

  /** Prepending the id numbered `length + 1` keeps a list serially numbered. */
  lemma SerialNumberedPrepend(ids: seq<string>, prefix: string, serials: seq<nat>)
    requires SerialNumbered(ids, prefix, serials)
    ensures SerialNumbered([SerialId(prefix, |ids| + 1)] + ids, prefix, [|ids| + 1] + serials)
  {
    var ids', serials' := [SerialId(prefix, |ids| + 1)] + ids, [|ids| + 1] + serials;
    forall i | 0 <= i < |ids'| ensures 1 <= serials'[i] <= |ids'| && ids'[i] == SerialId(prefix, serials'[i]) {
      if i > 0 {
        assert ids'[i] == ids[i - 1] && serials'[i] == serials[i - 1];
      }
    }
    forall i, j | 0 <= i < j < |serials'| ensures serials'[i] != serials'[j] {
      assert serials'[j] == serials[j - 1];
      if i > 0 {
        assert serials'[i] == serials[i - 1];
      }
    }
  }
}
