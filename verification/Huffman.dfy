/**
 Canonical Huffman codes as section C.2 of ITU-T T.81 generates them: codes of
 one length count upwards, and the running value doubles from length to length.
 */
module Huffman {
  import opened Common

  type Bits = seq<bool>

  datatype BitCode = BitCode(code: nat, length: nat)

  /** value >> n and value << n. */
  function Shr(value: nat, n: nat): nat {
    if n == 0 then value else Shr(value, n - 1) / 2
  }

  function Shl(value: nat, n: nat): nat
    decreases n
  {
    if n == 0 then value else Shl(2 * value, n - 1)
  }

  /** The low `length` bits of `value`, most significant first. */
  function ToBits(value: nat, length: nat): (bits: Bits)
    ensures |bits| == length
  {
    if length == 0 then [] else ToBits(value / 2, length - 1) + [value % 2 == 1]
  }

  function ValueOf(bits: Bits): (value: nat)
    ensures value < Pow2(|bits|)
  {
    if bits == [] then 0 else
    var n := |bits| - 1;
    2 * ValueOf(bits[..n]) + if bits[n] then 1 else 0
  }

  lemma {:induction false} ValueOfToBits(value: nat, length: nat)
    requires value < Pow2(length)
    ensures ValueOf(ToBits(value, length)) == value
  {
    if length > 0 {
      ValueOfToBits(value / 2, length - 1);
      assert ToBits(value, length)[..length - 1] == ToBits(value / 2, length - 1);
    }
  }

  lemma {:induction false} ToBitsValueOf(bits: Bits)
    ensures ToBits(ValueOf(bits), |bits|) == bits
  {
    if bits != [] {
      var n := |bits| - 1;
      ToBitsValueOf(bits[..n]);
      assert bits == bits[..n] + [bits[n]];
    }
  }

  lemma {:induction false} ShrTwice(value: nat, n: nat)
    ensures Shr(value / 2, n) == Shr(value, n + 1)
  {
    if n > 0 {
      ShrTwice(value, n - 1);
    }
  }

  /** The first m of `length` bits are the value's high bits. */
  lemma {:induction false} ToBitsPrefix(value: nat, length: nat, m: nat)
    requires m <= length
    ensures ToBits(value, length)[..m] == ToBits(Shr(value, length - m), m)
    decreases length
  {
    if m < length {
      ToBitsPrefix(value / 2, length - 1, m);
      ShrTwice(value, length - m - 1);
      assert ToBits(value, length)[..m] == ToBits(value / 2, length - 1)[..m];
    }
  }

  lemma {:induction false} ShlMonotonic(a: nat, b: nat, n: nat)
    requires a <= b
    ensures Shl(a, n) <= Shl(b, n)
    ensures a < b ==> Shl(a, n) < Shl(b, n)
    decreases n
  {
    if n > 0 {
      ShlMonotonic(2 * a, 2 * b, n - 1);
    }
  }

  lemma {:induction false} ShlOfPow2(m: nat, n: nat)
    ensures Shl(Pow2(m), n) == Pow2(m + n)
    decreases n
  {
    if n > 0 {
      ShlOfPow2(m + 1, n - 1);
    }
  }

  lemma {:induction false} ShrUndoesShl(a: nat, b: nat, n: nat)
    requires Shl(a, n) <= b
    ensures a <= Shr(b, n)
    decreases n
  {
    if n > 0 {
      ShrUndoesShl(2 * a, b, n - 1);
    }
  }

  // ---------- Canonical codes ----------

  /** counts[k] codes of each length k from `length` to 16, numbered from `first`. */
  function CodesFrom(counts: seq<nat>, length: nat, first: nat): seq<BitCode>
    requires |counts| == 17 && 1 <= length <= 17
    decreases 17 - length
  {
    if length == 17 then [] else
    seq(counts[length], j requires j >= 0 => BitCode(first + j, length))
    + CodesFrom(counts, length + 1, 2 * (first + counts[length]))
  }

  function Codes(counts: seq<nat>): seq<BitCode>
    requires |counts| == 17
  {
    CodesFrom(counts, 1, 0)
  }

  /** The running value after the last length; at most 2^17 when the counts satisfy Kraft's inequality. */
  function EndValue(counts: seq<nat>, length: nat, first: nat): nat
    requires |counts| == 17 && 1 <= length <= 17
    decreases 17 - length
  {
    if length == 17 then first else EndValue(counts, length + 1, 2 * (first + counts[length]))
  }

  /** b's first a.length bits, read as a number, exceed a. */
  predicate Precedes(a: BitCode, b: BitCode) {
    a.length <= b.length && Shl(a.code + 1, b.length - a.length) <= b.code
  }

  lemma {:induction false} EndValueGrows(counts: seq<nat>, length: nat, first: nat)
    requires |counts| == 17 && 1 <= length <= 17
    ensures Shl(first, 17 - length) <= EndValue(counts, length, first)
    decreases 17 - length
  {
    if length < 17 {
      var next := 2 * (first + counts[length]);
      EndValueGrows(counts, length + 1, next);
      ShlMonotonic(2 * first, next, 16 - length);
    }
  }

  lemma CodesFromUnfolds(counts: seq<nat>, length: nat, first: nat)
    requires |counts| == 17 && 1 <= length <= 16
    ensures var codes, n, next := CodesFrom(counts, length, first), counts[length], 2 * (first + counts[length]);
            && |codes| == n + |CodesFrom(counts, length + 1, next)|
            && codes[n..] == CodesFrom(counts, length + 1, next)
            && (forall j :: 0 <= j < n ==> codes[j] == BitCode(first + j, length))
            && EndValue(counts, length, first) == EndValue(counts, length + 1, next)
  {}

  lemma NoneLeft(counts: seq<nat>, first: nat)
    requires |counts| == 17
    ensures CodesFrom(counts, 17, first) == []
  {}

  lemma {:induction false} CodeBounds(counts: seq<nat>, length: nat, first: nat, i: nat)
    requires |counts| == 17 && 1 <= length <= 17 && i < |CodesFrom(counts, length, first)|
    ensures var c := CodesFrom(counts, length, first)[i];
            && length <= c.length <= 16 && Shl(first, c.length - length) <= c.code
            && Shl(c.code + 1, 17 - c.length) <= EndValue(counts, length, first)
    decreases 17 - length
  {
    hide CodesFrom, EndValue;
    NoneLeft(counts, first);
    CodesFromUnfolds(counts, length, first);
    var n, next := counts[length], 2 * (first + counts[length]);
    if i < n {
      EndValueGrows(counts, length + 1, next);
      ShlMonotonic(2 * (first + i + 1), next, 16 - length);
    } else {
      CodeBounds(counts, length + 1, next, i - n);
      var c := CodesFrom(counts, length + 1, next)[i - n];
      assert CodesFrom(counts, length, first)[i] == CodesFrom(counts, length, first)[n..][i - n] == c;
      ShlMonotonic(2 * first, next, c.length - length - 1);
    }
  }

  lemma {:induction false} CodesAreOrdered(counts: seq<nat>, length: nat, first: nat, i: nat, j: nat)
    requires |counts| == 17 && 1 <= length <= 17 && i < j < |CodesFrom(counts, length, first)|
    ensures Precedes(CodesFrom(counts, length, first)[i], CodesFrom(counts, length, first)[j])
    decreases 17 - length
  {
    hide CodesFrom, EndValue;
    NoneLeft(counts, first);
    CodesFromUnfolds(counts, length, first);
    var codes, n, next := CodesFrom(counts, length, first), counts[length], 2 * (first + counts[length]);
    if n <= i {
      CodesAreOrdered(counts, length + 1, next, i - n, j - n);
      assert codes[i] == codes[n..][i - n] && codes[j] == codes[n..][j - n];
    } else if n <= j {
      CodeBounds(counts, length + 1, next, j - n);
      assert codes[j] == codes[n..][j - n];
      ShlMonotonic(2 * (first + i + 1), next, codes[j].length - length - 1);
    } else {
      assert Shl(codes[i].code + 1, 0) <= codes[j].code;
    }
  }

  lemma CodeFits(counts: seq<nat>, i: nat)
    requires |counts| == 17 && i < |Codes(counts)| && EndValue(counts, 1, 0) <= Pow2(17)
    ensures Codes(counts)[i].code < Pow2(Codes(counts)[i].length)
  {
    hide CodesFrom, EndValue;
    CodeBounds(counts, 1, 0, i);
    var c := Codes(counts)[i];
    ShlOfPow2(c.length, 17 - c.length);
    if c.code >= Pow2(c.length) {
      ShlMonotonic(Pow2(c.length), c.code + 1, 17 - c.length);
    }
  }

  /** A code that precedes another is not a prefix of it, nor the other of it. */
  lemma PrecedingIsNoPrefix(a: BitCode, b: BitCode)
    requires Precedes(a, b) && a.code < Pow2(a.length) && b.code < Pow2(b.length)
    ensures !(ToBits(a.code, a.length) <= ToBits(b.code, b.length))
    ensures !(ToBits(b.code, b.length) <= ToBits(a.code, a.length))
  {
    var abits, bbits := ToBits(a.code, a.length), ToBits(b.code, b.length);
    var high := Shr(b.code, b.length - a.length);
    ShrUndoesShl(a.code + 1, b.code, b.length - a.length);
    ToBitsPrefix(b.code, b.length, a.length);
    ValueOfToBits(a.code, a.length);
    ShrFits(b.code, b.length, b.length - a.length);
    ValueOfToBits(high, a.length);
    assert abits != bbits[..a.length];
    assert bbits <= abits ==> bbits == abits;
  }

  lemma {:induction false} ShrFits(value: nat, length: nat, n: nat)
    requires n <= length && value < Pow2(length)
    ensures Shr(value, n) < Pow2(length - n)
  {
    if n > 0 {
      ShrFits(value, length, n - 1);
    }
  }

  // ---------- Code tables ----------

  /** values[i] is given codes[i]; a later entry for the same value replaces an earlier one. */
  function TableOf(codes: seq<BitCode>, values: seq<int>): map<int, BitCode>
    requires |codes| <= |values|
  {
    if codes == [] then map[] else
    var n := |codes| - 1;
    TableOf(codes[..n], values)[values[n] := codes[n]]
  }

  lemma {:induction false} TableEntry(codes: seq<BitCode>, values: seq<int>, v: int) returns (i: nat)
    requires |codes| <= |values| && v in TableOf(codes, values)
    ensures i < |codes| && values[i] == v && TableOf(codes, values)[v] == codes[i]
  {
    var n := |codes| - 1;
    if values[n] == v {
      i := n;
    } else {
      i := TableEntry(codes[..n], values, v);
    }
  }

  lemma {:induction false} TableHas(codes: seq<BitCode>, values: seq<int>, i: nat)
    requires i < |codes| <= |values|
    ensures values[i] in TableOf(codes, values)
  {
    var n := |codes| - 1;
    if i < n {
      TableHas(codes[..n], values, i);
    }
  }

  function CodeBits(table: map<int, BitCode>, v: int): Bits
    requires v in table
  {
    ToBits(table[v].code, table[v].length)
  }

  /** Every code is nonempty and no code is a prefix of another symbol's. */
  predicate PrefixFree(table: map<int, BitCode>) {
    && (forall v :: v in table ==> table[v].length > 0)
    && (forall u, v :: u in table && v in table && CodeBits(table, u) <= CodeBits(table, v) ==> u == v)
  }

  /** Canonical codes are prefix-free whenever the counts satisfy Kraft's inequality, whatever symbols they are given
      to. */
  lemma {:induction false} CanonicalIsPrefixFree(counts: seq<nat>, values: seq<int>)
    requires |counts| == 17 && |Codes(counts)| <= |values| && EndValue(counts, 1, 0) <= Pow2(17)
    ensures PrefixFree(TableOf(Codes(counts), values))
  {
    hide CodesFrom, EndValue, TableOf, ToBits, Shl;
    var codes := Codes(counts);
    var table := TableOf(codes, values);
    forall v | v in table ensures table[v].length > 0 {
      var i := TableEntry(codes, values, v);
      CodeBounds(counts, 1, 0, i);
    }
    forall u, v | u in table && v in table && u != v ensures !(CodeBits(table, u) <= CodeBits(table, v)) {
      var i := TableEntry(codes, values, u);
      var j := TableEntry(codes, values, v);
      CodeFits(counts, i);
      CodeFits(counts, j);
      if i < j {
        CodesAreOrdered(counts, 1, 0, i, j);
        PrecedingIsNoPrefix(codes[i], codes[j]);
      } else {
        CodesAreOrdered(counts, 1, 0, j, i);
        PrecedingIsNoPrefix(codes[j], codes[i]);
      }
    }
  }

  /** The codes from position `start` on are those of length `length` and up, numbered from `first`. */
  ghost predicate Reached(counts: seq<nat>, start: nat, length: nat, first: nat)
    requires |counts| == 17
  {
    1 <= length <= 17 && start <= |Codes(counts)| && Codes(counts)[start..] == CodesFrom(counts, length, first)
  }

  ghost function Filled(counts: seq<nat>, values: seq<int>, n: nat): map<int, BitCode>
    requires |counts| == 17 && n <= |Codes(counts)| <= |values|
  {
    TableOf(Codes(counts)[..n], values)
  }

  lemma FilledStep(counts: seq<nat>, values: seq<int>, start: nat, length: nat, first: nat, j: nat)
    requires |counts| == 17 && |Codes(counts)| <= |values| && Reached(counts, start, length, first)
    requires length <= 16 && j < counts[length]
    ensures start + j < |Codes(counts)|
    ensures Filled(counts, values, start + j + 1)
         == Filled(counts, values, start + j)[values[start + j] := BitCode(first + j, length)]
  {
    hide CodesFrom, EndValue;
    CodesFromUnfolds(counts, length, first);
    var codes := Codes(counts);
    assert codes[start + j] == codes[start..][j];
    assert codes[..start + j + 1][..start + j] == codes[..start + j];
  }

  lemma LengthDone(counts: seq<nat>, start: nat, length: nat, first: nat)
    requires |counts| == 17 && Reached(counts, start, length, first) && length <= 16
    ensures Reached(counts, start + counts[length], length + 1, 2 * (first + counts[length]))
  {
    hide CodesFrom, EndValue;
    CodesFromUnfolds(counts, length, first);
    var codes, n := Codes(counts), counts[length];
    assert codes[start..][n..] == codes[start + n..];
  }

  lemma FilledEnds(counts: seq<nat>, values: seq<int>, n: nat, first: nat)
    requires |counts| == 17 && |Codes(counts)| <= |values|
    ensures Reached(counts, 0, 1, 0) && Filled(counts, values, 0) == map[]
    ensures Reached(counts, n, 17, first) ==> Filled(counts, values, n) == TableOf(Codes(counts), values)
  {
    hide CodesFrom;
    NoneLeft(counts, first);
    var codes := Codes(counts);
    assert codes[0..] == codes;
    assert n == |codes| ==> codes[..n] == codes;
  }

  /** computeHuffmanTbl: two nested counters over one running code value. */
  method ComputeHuffmanTbl(nrcodes: seq<nat>, stdTable: seq<int>) returns (ht: map<int, BitCode>)
    requires |nrcodes| == 17 && |Codes(nrcodes)| <= |stdTable|
    ensures ht == TableOf(Codes(nrcodes), stdTable)
  {
    hide CodesFrom, Codes, TableOf, Filled;
    var codevalue, posInTable := 0, 0;
    ht := map[];
    FilledEnds(nrcodes, stdTable, 0, 0);
    for k := 1 to 17
      invariant codevalue >= 0 && posInTable >= 0 && Reached(nrcodes, posInTable, k, codevalue)
      invariant ht == Filled(nrcodes, stdTable, posInTable)
    {
      ghost var start, first := posInTable, codevalue;
      LengthDone(nrcodes, start, k, first);
      for j := 1 to nrcodes[k] + 1
        invariant posInTable == start + j - 1 <= |Codes(nrcodes)| && codevalue == first + j - 1
        invariant ht == Filled(nrcodes, stdTable, posInTable)
      {
        FilledStep(nrcodes, stdTable, start, k, first, j - 1);
        ht := ht[stdTable[posInTable] := BitCode(codevalue, k)];
        posInTable := posInTable + 1;
        codevalue := codevalue + 1;
      }
      codevalue := codevalue * 2;
    }
    FilledEnds(nrcodes, stdTable, posInTable, codevalue);
  }

  // ---------- Decoding one symbol ----------

  /** The symbol whose code starts the bits, and the bits after it. */
  ghost function DecodeSymbol(table: map<int, BitCode>, bits: Bits): Option<(int, Bits)> {
    if exists v :: v in table && CodeBits(table, v) <= bits
    then var v :| v in table && CodeBits(table, v) <= bits; Some((v, bits[table[v].length..]))
    else None
  }

  lemma {:induction false} SymbolDecodes(table: map<int, BitCode>, v: int, rest: Bits)
    requires PrefixFree(table) && v in table
    ensures DecodeSymbol(table, CodeBits(table, v) + rest) == Some((v, rest))
  {
    var code := CodeBits(table, v);
    var bits := code + rest;
    assert code <= bits && bits[|code|..] == rest;
    forall u | u in table && CodeBits(table, u) <= bits ensures u == v {
      var other := CodeBits(table, u);
      assert if |other| <= |code| then other <= code else code <= other by {
        assert other == bits[..|other|] && code == bits[..|code|];
      }
    }
  }
}
