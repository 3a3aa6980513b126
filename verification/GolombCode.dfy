/** The Golomb coding of gcs/gcs.go as functions on bits and numbers: what the
    writer produces, what the reader makes of any bit stream, and the two ways
    of looking for a value in it. */
module GolombCode {
  import opened Types
  import opened BitStreams

  function Trues(n: nat): seq<bool> { seq(n, _ => true) }

  function Multiple(d: nat, m: nat): nat
    requires m > 0
  {
    d / m
  }

  function Remainder(d: nat, m: nat): (r: nat)
    requires m > 0
    ensures r < m
  {
    d % m
  }

  lemma Together(d: nat, m: nat)
    requires m > 0
    ensures Multiple(d, m) * m + Remainder(d, m) == d && Remainder(d, m) <= d
  {
  }

  /** A difference: the multiple of 2^p in unary, then p bits of remainder. */
  function Code(d: nat, p: nat): seq<bool> {
    Trues(Multiple(d, Pow2(p))) + [false] + Bits(Remainder(d, Pow2(p)), p)
  }

  function CodeAll(ds: seq<nat>, p: nat): seq<bool> {
    if ds == [] then [] else CodeAll(ds[..|ds| - 1], p) + Code(ds[|ds| - 1], p)
  }

  /** readFullUint64 on a bit stream. */
  function DecodeOne(b: seq<bool>, p: nat): (r: Option<(nat, seq<bool>)>)
    ensures r.Some? ==> |r.value.1| < |b|
  {
    var u := Ones(b);
    if u >= |b| || p > |b[u + 1..]| then None
    else Some(((u * Pow2(p) + Number(b[u + 1..][..p])) % WORD, b[u + 1..][p..]))
  }

  /** All differences that can be read, to the end of the stream. */
  function DecodeAll(b: seq<bool>, p: nat): seq<nat>
    decreases |b|
  {
    match DecodeOne(b, p)
    case None => []
    case Some((d, rest)) => [d] + DecodeAll(rest, p)
  }

  /** The loop of Match: the running sum meets the term before it passes it. */
  predicate Meets(ds: seq<nat>, last: int, term: int)
    decreases |ds|
  {
    last < term && ds != [] &&
    var v := (last + ds[0]) % WORD;
    v == term || Meets(ds[1..], v, term)
  }

  /** The loop of MatchAny: two ascending lists are zipped down. */
  predicate Zips(ds: seq<nat>, last1: int, values: seq<int>, i: nat, last2: int)
    requires i <= |values|
    decreases |ds| + |values| - i
  {
    if last1 == last2 then true
    else if last1 > last2 then i < |values| && Zips(ds, last1, values, i + 1, values[i])
    else ds != [] && Zips(ds[1..], (last1 + ds[0]) % WORD, values, i, last2)
  }

  // ---------------------------------------------------------------- decoding undoes coding

  lemma {:induction false} OnesOfTrues(n: nat, rest: seq<bool>)
    ensures Ones(Trues(n) + [false] + rest) == n
  {
    var b := Trues(n) + [false] + rest;
    if n > 0 {
      OnesOfTrues(n - 1, rest);
      assert b[1..] == Trues(n - 1) + [false] + rest;
    }
  }

  lemma {:induction false} DecodeCode(d: nat, p: nat, rest: seq<bool>)
    requires d < WORD
    ensures DecodeOne(Code(d, p) + rest, p) == Some((d, rest))
  {
    hide Ones, Number, Bits, Pow2, Multiple, Remainder;
    var q, r, bits := Multiple(d, Pow2(p)), Remainder(d, Pow2(p)), Bits(Remainder(d, Pow2(p)), p);
    var b := Code(d, p) + rest;
    assert b == Trues(q) + [false] + (bits + rest);
    OnesOfTrues(q, bits + rest);
    assert b[q + 1..] == bits + rest;
    assert (bits + rest)[..p] == bits && (bits + rest)[p..] == rest;
    NumberOfBits(r, p);
    Together(d, Pow2(p));
  }

  /** Padding decodes as zero differences, if it holds any. */
  lemma {:induction false} DecodePadding(k: nat, p: nat)
    ensures forall i :: 0 <= i < |DecodeAll(Zeros(k), p)| ==> DecodeAll(Zeros(k), p)[i] == 0
  {
    hide Number, Pow2;
    if k > 0 {
      assert Ones(Zeros(k)) == 0;
      assert Zeros(k)[1..] == Zeros(k - 1);
      if p <= k - 1 {
        assert Zeros(k - 1)[..p] == Zeros(p) && Zeros(k - 1)[p..] == Zeros(k - 1 - p);
        ZerosAreZero(p);
        DecodePadding(k - 1 - p, p);
      }
    }
  }

  lemma {:induction false} CodeAllHead(ds: seq<nat>, p: nat)
    requires ds != []
    ensures CodeAll(ds, p) == Code(ds[0], p) + CodeAll(ds[1..], p)
  {
    hide Code;
    if |ds| == 1 {
      assert ds[..0] == [] && ds[1..] == [] && ds[0] == ds[|ds| - 1];
    } else {
      var pre, tail := ds[..|ds| - 1], ds[1..];
      CodeAllHead(pre, p);
      var last := ds[|ds| - 1];
      assert tail[..|tail| - 1] == pre[1..] && tail[|tail| - 1] == last;
      assert CodeAll(tail, p) == CodeAll(pre[1..], p) + Code(last, p);
      assert CodeAll(ds, p) == CodeAll(pre, p) + Code(last, p);
    }
  }

  /** Decoding a coded list gives it back, and then only zeros, which repeat its last value. */
  lemma {:induction false} DecodeCodeAll(ds: seq<nat>, p: nat, k: nat)
    requires forall i :: 0 <= i < |ds| ==> ds[i] < WORD
    ensures DecodeAll(CodeAll(ds, p) + Zeros(k), p) == ds + DecodeAll(Zeros(k), p)
    ensures forall i :: 0 <= i < |DecodeAll(Zeros(k), p)| ==> DecodeAll(Zeros(k), p)[i] == 0
    decreases |ds|
  {
    hide DecodeOne, Code;
    if ds == [] {
      DecodePadding(k, p);
      assert CodeAll(ds, p) + Zeros(k) == Zeros(k);
    } else {
      CodeAllHead(ds, p);
      var rest := CodeAll(ds[1..], p) + Zeros(k);
      assert CodeAll(ds, p) + Zeros(k) == Code(ds[0], p) + rest;
      DecodeCode(ds[0], p, rest);
      DecodeCodeAll(ds[1..], p, k);
      assert ds + DecodeAll(Zeros(k), p) == [ds[0]] + (ds[1..] + DecodeAll(Zeros(k), p));
    }
  }

  // ---------------------------------------------------------------- sorted values

  /** Ascending numbers from low on, all representable. */
  predicate Ascending(values: seq<int>, low: int) {
    && 0 <= low
    && (forall i :: 0 <= i < |values| ==> low <= values[i] < WORD)
    && (forall i, j :: 0 <= i < j < |values| ==> values[i] <= values[j])
  }

  /** The differences of a list of ascending numbers. */
  function Differences(values: seq<int>, low: int): (ds: seq<nat>)
    requires Ascending(values, low)
    ensures |ds| == |values|
    decreases |values|
  {
    if values == [] then [] else [values[0] - low] + Differences(values[1..], values[0])
  }

  predicate AllZero(ds: seq<nat>) {
    forall i :: 0 <= i < |ds| ==> ds[i] == 0
  }

  lemma {:induction false} MeetsNothing(pad: seq<nat>, last: int, term: int)
    requires AllZero(pad) && 0 <= last < WORD
    ensures !Meets(pad, last, term)
    decreases |pad|
  {
    if pad != [] && last < term {
      MeetsNothing(pad[1..], last, term);
    }
  }

  /** Match finds a term exactly when it is above the start and among the values. */
  lemma {:induction false} MeetsExactly(values: seq<int>, low: int, pad: seq<nat>, term: int)
    requires Ascending(values, low) && AllZero(pad) && 0 <= low < WORD
    ensures Meets(Differences(values, low) + pad, low, term) <==> term > low && term in values
    decreases |values|
  {
    var ds := Differences(values, low) + pad;
    if values == [] {
      assert ds == pad;
      MeetsNothing(pad, low, term);
    } else if low < term {
      var v := values[0];
      MeetsExactly(values[1..], v, pad, term);
      assert ds != [] && ds[0] == v - low && ds[1..] == Differences(values[1..], v) + pad;
      Head(values, low, term);
    }
  }

  lemma {:induction false} Head(values: seq<int>, low: int, term: int)
    requires Ascending(values, low) && values != []
    ensures term > values[0] ==> (term in values <==> term in values[1..])
    ensures term < values[0] ==> term !in values
    ensures term == values[0] ==> term in values
  {
    assert values == [values[0]] + values[1..];
    assert forall i :: 0 <= i < |values| ==> values[i] >= values[0];
  }

  /** MatchAny finds an equal pair exactly when there is one: the value the
      first list has reached, or a later one, among the searched values. */
  lemma {:induction false} ZipsExactly(values: seq<int>, low: int, pad: seq<nat>, terms: seq<int>, i: nat)
    requires Ascending(values, low) && AllZero(pad) && 0 <= low < WORD && 0 < i <= |terms|
    requires forall j, k :: 0 <= j < k < |terms| ==> terms[j] <= terms[k]
    ensures Zips(Differences(values, low) + pad, low, terms, i, terms[i - 1])
            <==> exists j :: i - 1 <= j < |terms| && (terms[j] == low || terms[j] in values)
    decreases |values| + |pad| + |terms| - i
  {
    var ds, term := Differences(values, low) + pad, terms[i - 1];
    if low == term {
      assert terms[i - 1] == low;
    } else if low > term {
      assert term !in values;
      if i < |terms| {
        ZipsExactly(values, low, pad, terms, i + 1);
        Later(values, low, terms, i);
      }
    } else if values == [] {
      assert ds == pad;
      ZipsPadding(pad, low, terms, i);
    } else {
      ZipsExactly(values[1..], values[0], pad, terms, i);
      ZipsOn(values, low, pad, terms, i);
      Rest(values, low, terms, i);
    }
  }

  /** While the value reached is below the term, the next difference is read. */
  lemma {:induction false} ZipsOn(values: seq<int>, low: int, pad: seq<nat>, terms: seq<int>, i: nat)
    requires Ascending(values, low) && 0 <= low < WORD && 0 < i <= |terms| && values != [] && low < terms[i - 1]
    ensures Zips(Differences(values, low) + pad, low, terms, i, terms[i - 1])
       <==> Zips(Differences(values[1..], values[0]) + pad, values[0], terms, i, terms[i - 1])
  {
    hide Differences;
    FirstDifference(values, low, pad);
    var ds, v := Differences(values, low) + pad, values[0];
    assert (low + ds[0]) % WORD == v;
  }

  lemma {:induction false} FirstDifference(values: seq<int>, low: int, pad: seq<nat>)
    requires Ascending(values, low) && values != []
    ensures var ds := Differences(values, low) + pad;
            ds != [] && ds[0] == values[0] - low && ds[1..] == Differences(values[1..], values[0]) + pad
  {
    var ds := Differences(values, low);
    assert (ds + pad)[1..] == ds[1..] + pad;
  }

  lemma {:induction false} Later(values: seq<int>, low: int, terms: seq<int>, i: nat)
    requires 0 < i < |terms| && terms[i - 1] != low && terms[i - 1] !in values
    ensures (exists j :: i - 1 <= j < |terms| && (terms[j] == low || terms[j] in values))
       <==> (exists j :: i <= j < |terms| && (terms[j] == low || terms[j] in values))
  {
  }

  /** Against padding, only the value reached can be met. */
  lemma {:induction false} ZipsPadding(pad: seq<nat>, low: int, terms: seq<int>, i: nat)
    requires AllZero(pad) && 0 <= low < WORD && 0 < i <= |terms| && low < terms[i - 1]
    requires forall j, k :: 0 <= j < k < |terms| ==> terms[j] <= terms[k]
    ensures !Zips(pad, low, terms, i, terms[i - 1])
    ensures forall j :: i - 1 <= j < |terms| ==> terms[j] != low
    decreases |pad|
  {
    if pad != [] {
      ZipsPadding(pad[1..], low, terms, i);
    }
  }

  lemma {:induction false} Rest(values: seq<int>, low: int, terms: seq<int>, i: nat)
    requires values != [] && 0 < i <= |terms| && low < terms[i - 1]
    requires forall j, k :: 0 <= j < k < |terms| ==> terms[j] <= terms[k]
    ensures (exists j :: i - 1 <= j < |terms| && (terms[j] == low || terms[j] in values))
       <==> (exists j :: i - 1 <= j < |terms| && (terms[j] == values[0] || terms[j] in values[1..]))
  {
    assert values == [values[0]] + values[1..];
    forall j | i - 1 <= j < |terms|
      ensures terms[j] != low && (terms[j] in values <==> terms[j] == values[0] || terms[j] in values[1..])
    {
    }
  }
}
