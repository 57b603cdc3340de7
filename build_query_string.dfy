/** `buildQueryString`: turns a record of filter parameters into the query string
    of a shop URL. Single values and the elements of array values are trimmed, blank
    ones are dropped, and the rest are appended to a `URLSearchParams` in entry
    order, which serialises them as `application/x-www-form-urlencoded`. */
module QueryString {
  import opened Common

  /** A parameter value: `null` or `undefined`, a string, or an array whose elements
      may themselves be missing (`v?.trim()` allows for that). */
  datatype ParamValue = Absent | Single(s: string) | Many(values: seq<Option<string>>)

  /** The record's entries, in the order `Object.entries` lists them. */
  type Params = seq<(string, ParamValue)>

  /** A name-value pair of the `URLSearchParams` list. */
  type Pair = (string, string)

  // ---------------------------------------------------------------------------
  // Which pairs are appended
  // ---------------------------------------------------------------------------

  /** `v?.trim()` when it is truthy: the trimmed value of a present, non-blank
      string. */
  function Kept(v: Option<string>): (r: Option<string>)
    ensures r.Some? <==> v.Some? && Trim(v.value) != ""
    ensures r.Some? ==> r.value == Trim(v.value)
  {
    match v
    case None => None
    case Some(s) =>
      var trimmed := Trim(s);
      if trimmed != "" then Some(trimmed) else None
  }

  /** The pairs appended for the first n elements of an array value. */
  function ArrayPairs(key: string, values: seq<Option<string>>, n: nat): seq<Pair>
    requires n <= |values|
  {
    if n == 0 then []
    else
      var earlier := ArrayPairs(key, values, n - 1);
      match Kept(values[n - 1])
      case Some(t) => earlier + [(key, t)]
      case None => earlier
  }

  /** The pairs appended for one entry: a single value is kept or dropped exactly as
      an array holding just that value. */
  function EntryPairs(key: string, value: ParamValue): seq<Pair>
    decreases if value.Single? then 1 else 0
  {
    match value
    case Absent => []
    case Single(s) => EntryPairs(key, Many([Some(s)]))
    case Many(values) => ArrayPairs(key, values, |values|)
  }

  /** The pairs appended for the first n entries. */
  function QueryPairs(params: Params, n: nat): seq<Pair>
    requires n <= |params|
  {
    if n == 0 then [] else QueryPairs(params, n - 1) + EntryPairs(params[n - 1].0, params[n - 1].1)
  }

  function AllPairs(params: Params): seq<Pair> {
    QueryPairs(params, |params|)
  }

  /** Every appended value is non-blank and already trimmed, and sits under the key
      of the entry it came from. */
  lemma {:induction false} ArrayPairsTrimmed(key: string, values: seq<Option<string>>, n: nat)
    requires n <= |values|
    ensures forall p :: p in ArrayPairs(key, values, n) ==> p.0 == key && p.1 != "" && Trim(p.1) == p.1
  {
    if n > 0 {
      ArrayPairsTrimmed(key, values, n - 1);
      if values[n - 1].Some? {
        TrimIdempotent(values[n - 1].value);
      }
    }
  }

  lemma {:induction false} ValuesTrimmed(params: Params, n: nat)
    requires n <= |params|
    ensures forall p :: p in QueryPairs(params, n) ==> p.1 != "" && Trim(p.1) == p.1
    ensures forall p :: p in QueryPairs(params, n) ==> exists k :: 0 <= k < n && params[k].0 == p.0
  {
    if n > 0 {
      ValuesTrimmed(params, n - 1);
      var key := params[n - 1].0;
      match params[n - 1].1
      case Absent =>
      case Single(s) =>
        assert EntryPairs(key, Single(s)) == ArrayPairs(key, [Some(s)], 1);
        ArrayPairsTrimmed(key, [Some(s)], 1);
      case Many(values) => ArrayPairsTrimmed(key, values, |values|);
      forall p | p in QueryPairs(params, n)
        ensures exists k :: 0 <= k < n && params[k].0 == p.0
      {
        if p !in QueryPairs(params, n - 1) {
          assert p in EntryPairs(key, params[n - 1].1);
          assert params[n - 1].0 == p.0;
        }
      }
    }
  }

  /** An array whose elements are all present and non-blank gives one pair per
      element, under the same key, in the array's order. */
  lemma {:induction false} ArrayKeepsOrder(key: string, values: seq<Option<string>>, n: nat)
    requires n <= |values|
    requires forall i :: 0 <= i < |values| ==> values[i].Some? && Trim(values[i].value) != ""
    ensures |ArrayPairs(key, values, n)| == n
    ensures forall i :: 0 <= i < n ==> ArrayPairs(key, values, n)[i] == (key, Trim(values[i].value))
  {
    if n > 0 {
      ArrayKeepsOrder(key, values, n - 1);
      var v := values[n - 1];
      assert Kept(v) == Some(Trim(v.value));
      assert ArrayPairs(key, values, n) == ArrayPairs(key, values, n - 1) + [(key, Trim(v.value))];
    }
  }

  /** Missing and blank elements of an array are skipped. */
  lemma SkippedElement(key: string, values: seq<Option<string>>, v: Option<string>)
    requires v.None? || Trim(v.value) == ""
    ensures ArrayPairs(key, values + [v], |values| + 1) == ArrayPairs(key, values, |values|)
  {
    assert (values + [v])[|values|] == v;
    ArrayPairsPrefix(key, values, [v], |values|);
  }

  lemma {:induction false} ArrayPairsPrefix(key: string, values: seq<Option<string>>, more: seq<Option<string>>, n: nat)
    requires n <= |values|
    ensures ArrayPairs(key, values + more, n) == ArrayPairs(key, values, n)
  {
    if n > 0 {
      assert (values + more)[n - 1] == values[n - 1];
      ArrayPairsPrefix(key, values, more, n - 1);
    }
  }

  /** A `null` or `undefined` entry adds nothing. */
  lemma AbsentEntrySkipped(params: Params, key: string)
    ensures AllPairs(params + [(key, Absent)]) == AllPairs(params)
  {
    QueryPairsPrefix(params, [(key, Absent)], |params|);
  }

  lemma {:induction false} QueryPairsPrefix(params: Params, more: Params, n: nat)
    requires n <= |params|
    ensures QueryPairs(params + more, n) == QueryPairs(params, n)
  {
    if n > 0 {
      assert (params + more)[n - 1] == params[n - 1];
      QueryPairsPrefix(params, more, n - 1);
    }
  }

  // ---------------------------------------------------------------------------
  // application/x-www-form-urlencoded serialisation
  // ---------------------------------------------------------------------------

  /** The bytes the urlencoded serialiser writes as themselves: `*`, `-`, `.`,
      digits, ASCII letters and `_`. */
  predicate IsUnreserved(b: nat) {
    b == 0x2A || b == 0x2D || b == 0x2E || 0x30 <= b <= 0x39 || 0x41 <= b <= 0x5A || b == 0x5F || 0x61 <= b <= 0x7A
  }

  predicate IsByte(b: nat) {
    b < 256
  }

  /** An upper-case hexadecimal digit. */
  function HexDigit(d: nat): (c: char)
    requires d < 16
    ensures IsDigitIn(c, 16) && DigitValue(c) == d
    ensures c != '&' && c != '=' && c != '+' && c != '%'
  {
    if d < 10 then ('0' as int + d) as char else ('A' as int + d - 10) as char
  }

  /** One byte of the UTF-8 encoding: itself when unreserved, `+` for a space,
      `%XX` otherwise. */
  function EncodeByte(b: nat): (t: string)
    requires IsByte(b)
    ensures forall i :: 0 <= i < |t| ==> t[i] != '&' && t[i] != '='
  {
    if IsUnreserved(b) then [b as char]
    else if b == 0x20 then "+"
    else "%" + [HexDigit(b / 16), HexDigit(b % 16)]
  }

  function EncodeBytes(bs: seq<nat>): (t: string)
    requires forall i :: 0 <= i < |bs| ==> IsByte(bs[i])
    ensures forall i :: 0 <= i < |t| ==> t[i] != '&' && t[i] != '='
  {
    if bs == [] then "" else EncodeByte(bs[0]) + EncodeBytes(bs[1..])
  }

  /** The UTF-8 encoding of a string. */
  function Utf8Encode(s: string): (bs: seq<nat>)
    ensures forall i :: 0 <= i < |bs| ==> IsByte(bs[i])
  {
    if s == [] then [] else Utf8Bytes(s[0]) + Utf8Encode(s[1..])
  }

  /** The urlencoded form of a name or a value. It never contains `&` or `=`, so
      the pairs can be told apart again. */
  function EncodeComponent(s: string): (t: string)
    ensures forall i :: 0 <= i < |t| ==> t[i] != '&' && t[i] != '='
  {
    EncodeBytes(Utf8Encode(s))
  }

  function PairText(p: Pair): string {
    EncodeComponent(p.0) + "=" + EncodeComponent(p.1)
  }

  /** `URLSearchParams.toString()`: the encoded pairs joined by `&`. */
  function Serialize(pairs: seq<Pair>): (query: string)
    ensures query == "" <==> pairs == []
  {
    if pairs == [] then ""
    else if |pairs| == 1 then PairText(pairs[0])
    else PairText(pairs[0]) + "&" + Serialize(pairs[1..])
  }

  // ---------------------------------------------------------------------------
  // The loop
  // ---------------------------------------------------------------------------

  /** `buildQueryString(params)`: the pairs collected by the loop, serialised
      (so the result is empty exactly when no pair was collected, by
      `Serialize`'s contract). */
  method BuildQueryString(params: Params) returns (query: string)
    ensures query == Serialize(AllPairs(params))
  {
    var pairs := CollectPairs(params);
    query := Serialize(pairs);
  }

  /** The loop over the entries of `params`, appending each entry's pairs. */
  method CollectPairs(params: Params) returns (pairs: seq<Pair>)
    ensures pairs == AllPairs(params)
  {
    pairs := [];
    var i := 0;
    while i < |params|
      invariant 0 <= i <= |params|
      invariant pairs == QueryPairs(params, i)
    {
      var (key, value) := params[i];
      pairs := AppendEntry(pairs, key, value);
      i := i + 1;
    }
  }

  /** The body of the loop over the entries: an array appends its kept elements,
      a single value its trimmed self unless blank, `null` and `undefined` nothing. */
  method AppendEntry(pairs: seq<Pair>, key: string, value: ParamValue) returns (pairs': seq<Pair>)
    ensures pairs' == pairs + EntryPairs(key, value)
  {
    pairs' := pairs;
    match value {
      case Absent =>
      case Single(s) =>
        var trimmed := Trim(s);
        SinglePairs(key, s);
        if trimmed != "" {
          pairs' := pairs' + [(key, trimmed)];
        }
      case Many(values) =>
        pairs' := AppendEach(pairs', key, values);
    }
  }

  /** `value.forEach(...)`: appends the kept elements of an array value. */
  method AppendEach(pairs: seq<Pair>, key: string, values: seq<Option<string>>) returns (pairs': seq<Pair>)
    ensures pairs' == pairs + ArrayPairs(key, values, |values|)
  {
    pairs' := pairs;
    var j := 0;
    while j < |values|
      invariant 0 <= j <= |values|
      invariant pairs' == pairs + ArrayPairs(key, values, j)
    {
      match values[j] {
        case None =>
        case Some(v) =>
          var trimmed := Trim(v);
          if trimmed != "" {
            pairs' := pairs' + [(key, trimmed)];
          }
      }
      j := j + 1;
    }
  }

  /** A single value gives its trimmed self, or nothing when blank. */
  lemma SinglePairs(key: string, s: string)
    ensures EntryPairs(key, Single(s)) == if Trim(s) != "" then [(key, Trim(s))] else []
  {
    assert EntryPairs(key, Single(s)) == ArrayPairs(key, [Some(s)], 1);
    assert ArrayPairs(key, [Some(s)], 0) == [];
  }

  // ---------------------------------------------------------------------------
  // Reading the query string back
  // ---------------------------------------------------------------------------

  /** Position of the first occurrence of a character, the length when none. */
  function FirstIndex(s: string, c: char): (i: nat)
    ensures i <= |s|
    ensures forall j :: 0 <= j < i ==> s[j] != c
    ensures i < |s| ==> s[i] == c
  {
    if s == [] then 0 else if s[0] == c then 0 else 1 + FirstIndex(s[1..], c)
  }

  /** Percent-decoding after `+` has become a space: `%` and two hexadecimal
      digits give one byte, any other character its UTF-8 bytes. */
  function DecodeBytes(t: string): seq<nat> {
    if t == [] then []
    else if t[0] == '+' then [0x20] + DecodeBytes(t[1..])
    else if t[0] == '%' && |t| >= 3 && IsDigitIn(t[1], 16) && IsDigitIn(t[2], 16) then
      [DigitValue(t[1]) * 16 + DigitValue(t[2])] + DecodeBytes(t[3..])
    else Utf8Bytes(t[0]) + DecodeBytes(t[1..])
  }

  /** The urlencoded parser, as far as bytes: each non-empty piece between `&` is
      split at its first `=` and both halves are decoded. */
  function ParseQuery(query: string): seq<(seq<nat>, seq<nat>)> {
    ParsePieces(Split(query, '&'))
  }

  function ParsePieces(pieces: seq<string>): seq<(seq<nat>, seq<nat>)> {
    if pieces == [] then []
    else if pieces[0] == [] then ParsePieces(pieces[1..])
    else
      var piece := pieces[0];
      var i := FirstIndex(piece, '=');
      var name := piece[..i];
      var value := if i < |piece| then piece[i + 1..] else [];
      [(DecodeBytes(name), DecodeBytes(value))] + ParsePieces(pieces[1..])
  }

  /** The UTF-8 bytes of each pair. */
  function PairBytes(pairs: seq<Pair>): seq<(seq<nat>, seq<nat>)> {
    if pairs == [] then [] else [(Utf8Encode(pairs[0].0), Utf8Encode(pairs[0].1))] + PairBytes(pairs[1..])
  }

  lemma DecodeEncodedByte(b: nat, rest: string)
    requires IsByte(b)
    ensures DecodeBytes(EncodeByte(b) + rest) == [b] + DecodeBytes(rest)
  {
    var t := EncodeByte(b) + rest;
    if IsUnreserved(b) {
      assert t[0] == b as char && t[1..] == rest;
    } else if b == 0x20 {
      assert t[0] == '+' && t[1..] == rest;
    } else {
      assert t[0] == '%' && t[3..] == rest;
      assert DigitValue(t[1]) * 16 + DigitValue(t[2]) == b;
    }
  }

  /** Decoding undoes the encoding, byte for byte. */
  lemma {:induction false} DecodeEncodeBytes(bs: seq<nat>)
    requires forall i :: 0 <= i < |bs| ==> IsByte(bs[i])
    ensures DecodeBytes(EncodeBytes(bs)) == bs
  {
    if bs != [] {
      DecodeEncodedByte(bs[0], EncodeBytes(bs[1..]));
      DecodeEncodeBytes(bs[1..]);
    }
  }

  /** The pieces of a serialised list are the pairs' texts. */
  lemma {:induction false} SplitSerialized(pairs: seq<Pair>)
    requires pairs != []
    ensures Split(Serialize(pairs), '&') == PairTexts(pairs)
  {
    var text := PairText(pairs[0]);
    if |pairs| == 1 {
      SplitNone(text, '&');
    } else {
      SplitAt(text, '&', Serialize(pairs[1..]));
      SplitSerialized(pairs[1..]);
    }
  }

  function PairTexts(pairs: seq<Pair>): seq<string> {
    if pairs == [] then [] else [PairText(pairs[0])] + PairTexts(pairs[1..])
  }

  lemma ParsePairText(p: Pair)
    ensures PairText(p) != []
    ensures var piece := PairText(p);
            var i := FirstIndex(piece, '=');
            i < |piece| && piece[..i] == EncodeComponent(p.0) && piece[i + 1..] == EncodeComponent(p.1)
  {
    var a, b := EncodeComponent(p.0), EncodeComponent(p.1);
    var piece := a + "=" + b;
    FirstIndexAfter(a, '=', b);
    assert piece[..|a|] == a;
    assert piece[|a| + 1..] == b;
  }

  lemma {:induction false} FirstIndexAfter(a: string, c: char, b: string)
    requires forall i :: 0 <= i < |a| ==> a[i] != c
    ensures FirstIndex(a + [c] + b, c) == |a|
  {
    if a != [] {
      assert (a + [c] + b)[1..] == a[1..] + [c] + b;
      FirstIndexAfter(a[1..], c, b);
    }
  }

  lemma {:induction false} ParsePairTexts(pairs: seq<Pair>)
    ensures ParsePieces(PairTexts(pairs)) == PairBytes(pairs)
  {
    if pairs != [] {
      ParsePairText(pairs[0]);
      DecodeEncodeBytes(Utf8Encode(pairs[0].0));
      DecodeEncodeBytes(Utf8Encode(pairs[0].1));
      assert PairTexts(pairs)[1..] == PairTexts(pairs[1..]);
      ParsePairTexts(pairs[1..]);
    }
  }

  /** Parsing the query string gives back every pair, in order, as UTF-8 bytes: the
      serialisation loses nothing. */
  lemma QueryRoundTrip(pairs: seq<Pair>)
    ensures ParseQuery(Serialize(pairs)) == PairBytes(pairs)
  {
    if pairs == [] {
      assert Split("", '&') == [[]];
    } else {
      SplitSerialized(pairs);
      ParsePairTexts(pairs);
    }
  }
}
