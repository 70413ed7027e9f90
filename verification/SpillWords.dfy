/** Data words, the cutting of raw data into words, and the markers of spill boundaries. */
module SpillWords {
  import opened Bytes

  /** The word types the readout software looks at; all others are alike to it. */
  datatype Kind = TrigHeader | TrigTrailer1 | SpillHeader | SpillTrailer2 | OtherKind

  /** How the four bytes of a data word are decoded. The bit layout belongs to bm-unpack,
      which is not part of this model: everything here holds for every decoder. */
  datatype Decoder = Decoder(
    kind: seq<byte> -> Kind,
    spillTag: seq<byte> -> nat,
    boardId: seq<byte> -> nat,
    triggerTag: seq<byte> -> nat)

  /** A piece of raw data: a data word of four bytes, or the one to three bytes
      that are left over at the end of a container. */
  type Token = seq<byte>

  function KindOf(d: Decoder, w: Token): Kind {
    if |w| == 4 then d.kind(w) else OtherKind
  }

  predicate IsBoundary(d: Decoder, w: Token) {
    KindOf(d, w) == SpillHeader || KindOf(d, w) == SpillTrailer2
  }

  ghost predicate NoneOf(d: Decoder, ts: seq<Token>, k: Kind) {
    forall i :: 0 <= i < |ts| ==> KindOf(d, ts[i]) != k
  }

  /** The words of a container, then its leftover bytes if there are any. */
  function Tokens(b: seq<byte>): (ts: seq<Token>)
    ensures |ts| == (|b| + 3) / 4
    ensures forall i :: 0 <= i < |ts| ==> ts[i] == b[4 * i..if 4 * i + 4 <= |b| then 4 * i + 4 else |b|]
  {
    seq((|b| + 3) / 4, i requires 0 <= i < (|b| + 3) / 4 =>
      b[4 * i..if 4 * i + 4 <= |b| then 4 * i + 4 else |b|])
  }

  function Flat(ts: seq<Token>): seq<byte> {
    if ts == [] then [] else Flat(ts[..|ts| - 1]) + ts[|ts| - 1]
  }

  lemma {:induction false} FlatAppend(a: seq<Token>, b: seq<Token>)
    ensures Flat(a + b) == Flat(a) + Flat(b)
  {
    if b == [] {
      assert a + b == a;
    } else {
      var n := |b| - 1;
      assert (a + b)[..|a| + n] == a + b[..n];
      FlatAppend(a, b[..n]);
    }
  }

  /** Consecutive tokens of a container are a slice of its bytes. */
  lemma {:induction false} FlatSlice(b: seq<byte>, i: nat, j: nat)
    requires i <= j <= |Tokens(b)|
    ensures 4 * i <= |b| + 3
    ensures Flat(Tokens(b)[i..j]) == if i == j then [] else b[4 * i..if 4 * j <= |b| then 4 * j else |b|]
  {
    hide Tokens, Flat;
    var ts := Tokens(b);
    if i == j {
      FlatEdges([], []);
    } else {
      FlatSlice(b, i, j - 1);
      assert ts[i..j] == ts[i..j - 1] + [ts[j - 1]];
      FlatEdges(ts[i..j - 1], ts[j - 1]);
      assert 4 * (j - 1) <= |b|;
    }
  }

  lemma FlatEdges(ts: seq<Token>, w: Token)
    ensures Flat([]) == []
    ensures Flat(ts + [w]) == Flat(ts) + w
  {
    assert (ts + [w])[..|ts|] == ts;
  }

  /** The words from `i` on are the bytes from `4 * i` on. */
  lemma FlatTail(b: seq<byte>, i: nat)
    requires i < |Tokens(b)|
    ensures Flat(Tokens(b)[i..]) == b[4 * i..]
  {
    FlatSlice(b, i, |Tokens(b)|);
    assert Tokens(b)[i..|Tokens(b)|] == Tokens(b)[i..];
  }

  /** A marked word lies inside the container with all its four bytes. */
  lemma MarkedWord(d: Decoder, b: seq<byte>, i: nat)
    requires i < |Tokens(b)| && KindOf(d, Tokens(b)[i]) != OtherKind
    ensures 4 * i + 4 <= |b|
  {
  }

  lemma FlatTokens(b: seq<byte>)
    ensures Flat(Tokens(b)) == b
  {
    FlatSlice(b, 0, |Tokens(b)|);
    assert Tokens(b)[0..|Tokens(b)|] == Tokens(b);
  }

  /** Whole words may be cut anywhere: only containers with leftover bytes shift what follows. */
  lemma TokensAppend(a: seq<byte>, b: seq<byte>)
    requires |a| % 4 == 0
    ensures Tokens(a + b) == Tokens(a) + Tokens(b)
  {
    var n := |Tokens(a)|;
    assert 4 * n == |a|;
    assert |Tokens(a + b)| == n + |Tokens(b)|;
    forall i | 0 <= i < |Tokens(a + b)|
      ensures Tokens(a + b)[i] == (Tokens(a) + Tokens(b))[i]
    {
      if i < n {
        assert (a + b)[4 * i..4 * i + 4] == a[4 * i..4 * i + 4];
      } else {
        var k := i - n;
        var e := if 4 * k + 4 <= |b| then 4 * k + 4 else |b|;
        assert (a + b)[|a| + 4 * k..|a| + e] == b[4 * k..e];
      }
    }
  }

  /** The byte offsets of the words of one kind, in order: a single filter over the words. */
  function Offsets(d: Decoder, ts: seq<Token>, k: Kind): seq<nat> {
    if ts == [] then []
    else
      var n := |ts| - 1;
      Offsets(d, ts[..n], k) + if KindOf(d, ts[n]) == k then [4 * n] else []
  }

  /** The marker list of a container is complete, sound, aligned and strictly increasing. */
  lemma {:induction false} OffsetsExact(d: Decoder, ts: seq<Token>, k: Kind)
    ensures forall i :: 0 <= i < |ts| ==> (KindOf(d, ts[i]) == k <==> 4 * i in Offsets(d, ts, k))
    ensures forall m :: m in Offsets(d, ts, k) ==> m % 4 == 0 && m / 4 < |ts|
    ensures forall i, j :: 0 <= i < j < |Offsets(d, ts, k)| ==> Offsets(d, ts, k)[i] < Offsets(d, ts, k)[j]
  {
    if ts == [] {
    } else {
      var n := |ts| - 1;
      OffsetsExact(d, ts[..n], k);
      var o := Offsets(d, ts[..n], k);
      assert forall i :: 0 <= i < n ==> ts[..n][i] == ts[i];
      assert 4 * n !in o;
      assert forall i :: 0 <= i < |o| ==> o[i] in o;
    }
  }

  lemma NoOffsets(d: Decoder, ts: seq<Token>, k: Kind)
    ensures |Offsets(d, ts, k)| == 0 <==> NoneOf(d, ts, k)
  {
    OffsetsExact(d, ts, k);
    if |Offsets(d, ts, k)| > 0 {
      var m := Offsets(d, ts, k)[0];
      assert m in Offsets(d, ts, k) && 4 * (m / 4) == m;
    }
  }

  /** A single marker splits the words around the only word of its kind. */
  lemma OneOffset(d: Decoder, ts: seq<Token>, k: Kind) returns (i: nat)
    requires |Offsets(d, ts, k)| == 1
    ensures i < |ts| && Offsets(d, ts, k) == [4 * i] && KindOf(d, ts[i]) == k
    ensures NoneOf(d, ts[..i], k) && NoneOf(d, ts[i + 1..], k)
    ensures ts == ts[..i] + [ts[i]] + ts[i + 1..]
  {
    OffsetsExact(d, ts, k);
    var o := Offsets(d, ts, k);
    assert o[0] in o;
    i := o[0] / 4;
    forall j | 0 <= j < |ts| && j != i
      ensures KindOf(d, ts[j]) != k
    {
      assert o == [4 * i];
    }
  }

  lemma NoneOfPart(d: Decoder, ts: seq<Token>, i: nat, j: nat, k: Kind)
    requires i <= j <= |ts| && NoneOf(d, ts, k)
    ensures NoneOf(d, ts[i..j], k)
  {
  }

  /** Leftover bytes never carry a marker, so scanning the whole words finds them all. */
  lemma ScanCoversAll(d: Decoder, b: seq<byte>, k: Kind)
    requires k != OtherKind
    ensures |b| / 4 <= |Tokens(b)|
    ensures Offsets(d, Tokens(b)[..|b| / 4], k) == Offsets(d, Tokens(b), k)
  {
    var ts := Tokens(b);
    var n := |b| / 4;
    if n == |ts| {
      assert ts[..n] == ts;
    } else {
      assert |ts| == n + 1 && |ts[n]| < 4;
    }
  }
}
