/** Barrier tokens: the splitmix64 finalizer, the stable hash and `compute_token`. */
module Tokens {

  import opened Words

  /** One argument of the hash: a byte string, a tuple or list of integers, or an integer. */
  datatype Chunk = Bytes(data: seq<bv8>) | Ints(values: seq<int>) | Word(value: int)

  // The steps of the mixer and their inverses: a constant is added, shifted copies are
  // folded in, and two odd constants multiply.

  function Xor(a: bv64, b: bv64): bv64 { a ^ b }

  function Right30(x: bv64): bv64 { x >> 30 }
  function Right60(x: bv64): bv64 { x >> 60 }
  function Right27(x: bv64): bv64 { x >> 27 }
  function Right54(x: bv64): bv64 { x >> 54 }
  function Right31(x: bv64): bv64 { x >> 31 }
  function Right62(x: bv64): bv64 { x >> 62 }

  function Add(x: bv64): bv64 { x + 0x9E3779B97F4A7C15 }
  function Shift30(x: bv64): bv64 { Xor(x, Right30(x)) }
  function Times1(x: bv64): bv64 { x * 0xBF58476D1CE4E5B9 }
  function Shift27(x: bv64): bv64 { Xor(x, Right27(x)) }
  function Times2(x: bv64): bv64 { x * 0x94D049BB133111EB }
  function Shift31(x: bv64): bv64 { Xor(x, Right31(x)) }

  function UndoAdd(y: bv64): bv64 { y - 0x9E3779B97F4A7C15 }
  function Undo30(y: bv64): bv64 { Xor(Xor(y, Right30(y)), Right60(y)) }
  function UndoTimes1(y: bv64): bv64 { y * 0x96DE1B173F119089 }
  function Undo27(y: bv64): bv64 { Xor(Xor(y, Right27(y)), Right54(y)) }
  function UndoTimes2(y: bv64): bv64 { y * 0x319642B2D24D8EC3 }
  function Undo31(y: bv64): bv64 { Xor(Xor(y, Right31(y)), Right62(y)) }

  function SplitMix(x: bv64): bv64 {
    Shift31(Times2(Shift27(Times1(Shift30(Add(x))))))
  }

  function Unmix(y: bv64): bv64 {
    UndoAdd(Undo30(UndoTimes1(Undo27(UndoTimes2(Undo31(y))))))
  }

  lemma XorAssoc(a: bv64, b: bv64, c: bv64)
    ensures Xor(Xor(a, b), c) == Xor(a, Xor(b, c))
  {
  }

  lemma XorSelf(a: bv64)
    ensures Xor(a, a) == 0
  {
  }

  lemma XorZero(a: bv64)
    ensures Xor(a, 0) == a
  {
  }

  lemma XorChain(x: bv64, a: bv64, b: bv64)
    ensures Xor(Xor(Xor(x, a), Xor(a, b)), b) == x
    ensures Xor(Xor(Xor(x, a), b), Xor(a, b)) == x
  {
    hide Xor;
    XorAssoc(Xor(x, a), Xor(a, b), b);
    XorAssoc(a, b, b);
    XorAssoc(x, a, a);
    XorAssoc(x, a, b);
    XorAssoc(x, Xor(a, b), Xor(a, b));
    XorSelf(a);
    XorSelf(b);
    XorSelf(Xor(a, b));
    XorZero(a);
    XorZero(x);
  }

  lemma Right30Distributes(x: bv64, z: bv64)
    ensures Right30(Xor(x, z)) == Xor(Right30(x), Right30(z))
  {
  }

  lemma Right60Distributes(x: bv64, z: bv64)
    ensures Right60(Xor(x, z)) == Xor(Right60(x), Right60(z))
  {
  }

  lemma Right30Repeats(x: bv64)
    ensures Right30(Right30(x)) == Right60(x)
    ensures Right60(Right30(x)) == 0 && Right30(Right60(x)) == 0
  {
  }

  lemma Shift30Inverts(x: bv64)
    ensures Undo30(Shift30(x)) == x && Shift30(Undo30(x)) == x
  {
    hide Xor, Right30, Right60;
    var a, b := Right30(x), Right60(x);
    Right30Repeats(x);
    Right30Distributes(x, a);
    Right60Distributes(x, a);
    Right30Distributes(Xor(x, a), b);
    XorZero(b);
    XorZero(Xor(a, b));
    XorChain(x, a, b);
  }

  lemma Right27Distributes(x: bv64, z: bv64)
    ensures Right27(Xor(x, z)) == Xor(Right27(x), Right27(z))
  {
  }

  lemma Right54Distributes(x: bv64, z: bv64)
    ensures Right54(Xor(x, z)) == Xor(Right54(x), Right54(z))
  {
  }

  lemma Right27Repeats(x: bv64)
    ensures Right27(Right27(x)) == Right54(x)
    ensures Right54(Right27(x)) == 0 && Right27(Right54(x)) == 0
  {
  }

  lemma Shift27Inverts(x: bv64)
    ensures Undo27(Shift27(x)) == x && Shift27(Undo27(x)) == x
  {
    hide Xor, Right27, Right54;
    var a, b := Right27(x), Right54(x);
    Right27Repeats(x);
    Right27Distributes(x, a);
    Right54Distributes(x, a);
    Right27Distributes(Xor(x, a), b);
    XorZero(b);
    XorZero(Xor(a, b));
    XorChain(x, a, b);
  }

  lemma Right31Distributes(x: bv64, z: bv64)
    ensures Right31(Xor(x, z)) == Xor(Right31(x), Right31(z))
  {
  }

  lemma Right62Distributes(x: bv64, z: bv64)
    ensures Right62(Xor(x, z)) == Xor(Right62(x), Right62(z))
  {
  }

  lemma Right31Repeats(x: bv64)
    ensures Right31(Right31(x)) == Right62(x)
    ensures Right62(Right31(x)) == 0 && Right31(Right62(x)) == 0
  {
  }

  lemma Shift31Inverts(x: bv64)
    ensures Undo31(Shift31(x)) == x && Shift31(Undo31(x)) == x
  {
    hide Xor, Right31, Right62;
    var a, b := Right31(x), Right62(x);
    Right31Repeats(x);
    Right31Distributes(x, a);
    Right62Distributes(x, a);
    Right31Distributes(Xor(x, a), b);
    XorZero(b);
    XorZero(Xor(a, b));
    XorChain(x, a, b);
  }

  lemma ShiftsInvert(x: bv64)
    ensures Undo30(Shift30(x)) == x && Shift30(Undo30(x)) == x
    ensures Undo27(Shift27(x)) == x && Shift27(Undo27(x)) == x
    ensures Undo31(Shift31(x)) == x && Shift31(Undo31(x)) == x
  {
    hide Shift30, Shift27, Shift31, Undo30, Undo27, Undo31;
    Shift30Inverts(x);
    Shift27Inverts(x);
    Shift31Inverts(x);
  }

  lemma ProductsInvert(x: bv64)
    ensures UndoTimes1(Times1(x)) == x && Times1(UndoTimes1(x)) == x
    ensures UndoTimes2(Times2(x)) == x && Times2(UndoTimes2(x)) == x
    ensures UndoAdd(Add(x)) == x && Add(UndoAdd(x)) == x
  {
  }

  /** The mixer is a bijection on 64-bit words: no two words mix to the same one, and
      every word is the mix of one. */
  lemma SplitMixBijective(x: bv64)
    ensures Unmix(SplitMix(x)) == x
    ensures SplitMix(Unmix(x)) == x
  {
    hide Add, Shift30, Times1, Shift27, Times2, Shift31, UndoAdd, Undo30, UndoTimes1, Undo27, UndoTimes2, Undo31;
    ProductsInvert(x);
    ShiftsInvert(Add(x));
    ProductsInvert(Shift30(Add(x)));
    ShiftsInvert(Times1(Shift30(Add(x))));
    ProductsInvert(Shift27(Times1(Shift30(Add(x)))));
    ShiftsInvert(Times2(Shift27(Times1(Shift30(Add(x))))));
    ShiftsInvert(x);
    ProductsInvert(Undo31(x));
    ShiftsInvert(UndoTimes2(Undo31(x)));
    ProductsInvert(Undo27(UndoTimes2(Undo31(x))));
    ShiftsInvert(UndoTimes1(Undo27(UndoTimes2(Undo31(x)))));
    ProductsInvert(Undo30(UndoTimes1(Undo27(UndoTimes2(Undo31(x))))));
  }

  // -------------------------------------------------------------- stable hash

  const SEED: bv64 := 0xCBF29CE484222325

  function ToNat(a: bv64): (n: nat)
    ensures n < TWO64
  {
    a as nat
  }

  function FromNat(n: nat): bv64
    requires n < TWO64
  {
    n as bv64
  }

  lemma TopBit(h: bv64)
    requires h as nat < 0x8000_0000_0000_0000
    ensures h < 0x8000_0000_0000_0000
  {
  }

  lemma EvenAsNat(h: bv64)
    requires h < 0x8000_0000_0000_0000
    ensures (h << 1) as nat == 2 * (h as nat)
  {
  }

  lemma OddAsNat(h: bv64)
    requires h < 0x8000_0000_0000_0000
    ensures ((h << 1) | 1) as nat == 2 * (h as nat) + 1
  {
  }

  /** Some word has each value below 2^64; by halving. */
  lemma {:induction false} WordOf(n: nat) returns (a: bv64)
    requires n < TWO64
    ensures ToNat(a) == n
  {
    if n == 0 {
      a := 0;
    } else {
      var h := WordOf(n / 2);
      TopBit(h);
      if n % 2 == 0 {
        EvenAsNat(h);
        a := h << 1;
      } else {
        OddAsNat(h);
        a := (h << 1) | 1;
      }
    }
  }

  /** Conversion loses nothing below 2^64. */
  lemma ToFrom(n: nat)
    requires n < TWO64
    ensures ToNat(FromNat(n)) == n
  {
    hide ToNat, FromNat;
    var a := WordOf(n);
    FromTo(a);
  }

  lemma ToNatInjective(a: bv64, b: bv64)
    requires ToNat(a) == ToNat(b)
    ensures a == b
  {
    FromTo(a);
    FromTo(b);
  }

  lemma FromTo(a: bv64)
    ensures FromNat(ToNat(a)) == a
  {
  }

  /** The low 64 bits of an integer of either sign. */
  function Low64(v: int): bv64 { FromNat(v % TWO64) }

  function ByteWord(b: bv8): bv64 { b as bv64 }

  /** The words one argument contributes: its bytes, its elements, or itself. */
  function WordsOf(c: Chunk): seq<bv64> {
    match c
    case Bytes(data) => seq(|data|, i requires 0 <= i < |data| => ByteWord(data[i]))
    case Ints(values) => seq(|values|, i requires 0 <= i < |values| => Low64(values[i]))
    case Word(value) => [Low64(value)]
  }

  /** The words of all arguments, one after another. */
  function Flatten(chunks: seq<Chunk>): seq<bv64> {
    if chunks == [] then [] else Flatten(chunks[..|chunks| - 1]) + WordsOf(chunks[|chunks| - 1])
  }

  /** Folding words into an accumulator. */
  function Fold(ws: seq<bv64>): bv64 {
    if ws == [] then SEED else SplitMix(Xor(Fold(ws[..|ws| - 1]), ws[|ws| - 1]))
  }

  function HashOf(chunks: seq<Chunk>): bv64 {
    Fold(Flatten(chunks))
  }

  lemma FoldSnoc(ws: seq<bv64>, w: bv64)
    ensures Fold(ws + [w]) == SplitMix(Xor(Fold(ws), w))
  {
    hide SplitMix, Xor;
    assert (ws + [w])[..|ws|] == ws;
  }

  lemma FlattenSnoc(chunks: seq<Chunk>, c: Chunk)
    ensures Flatten(chunks + [c]) == Flatten(chunks) + WordsOf(c)
  {
    assert (chunks + [c])[..|chunks|] == chunks;
  }

  /** One more word of the argument that is being folded in. */
  lemma NextWord(before: seq<bv64>, ws: seq<bv64>, j: nat, h: bv64)
    requires j < |ws| && h == Fold(before + ws[..j])
    ensures SplitMix(Xor(h, ws[j])) == Fold(before + ws[..j + 1])
  {
    hide SplitMix, Xor, Fold;
    assert before + ws[..j + 1] == before + ws[..j] + [ws[j]];
    FoldSnoc(before + ws[..j], ws[j]);
  }

  /** The hash as the code computes it: one accumulator folded through nested loops. */
  method StableHash64(chunks: seq<Chunk>) returns (h: bv64)
    ensures h == HashOf(chunks)
  {
    hide SplitMix, Low64, Xor, Fold, Flatten, WordsOf;
    h := SEED;
    EmptyFold();
    assert chunks[..0] == [];
    for i := 0 to |chunks|
      invariant h == Fold(Flatten(chunks[..i]))
    {
      ghost var before, ws := Flatten(chunks[..i]), WordsOf(chunks[i]);
      assert before + ws[..0] == before;
      match chunks[i] {
        case Bytes(data) =>
          WordsOfBytes(data);
          for j := 0 to |data|
            invariant h == Fold(before + ws[..j])
          {
            NextWord(before, ws, j, h);
            h := SplitMix(Xor(h, ByteWord(data[j])));
          }
        case Ints(values) =>
          WordsOfInts(values);
          for j := 0 to |values|
            invariant h == Fold(before + ws[..j])
          {
            NextWord(before, ws, j, h);
            h := SplitMix(Xor(h, Low64(values[j])));
          }
        case Word(value) =>
          assert ws == [Low64(value)] by { WordsOfOne(value); }
          NextWord(before, ws, 0, h);
          h := SplitMix(Xor(h, Low64(value)));
      }
      assert ws[..|ws|] == ws;
      assert chunks[..i + 1] == chunks[..i] + [chunks[i]];
      FlattenSnoc(chunks[..i], chunks[i]);
    }
    assert chunks[..|chunks|] == chunks;
  }

  lemma EmptyFold()
    ensures Fold(Flatten([])) == Fold([]) == SEED
  {
  }

  lemma WordsOfBytes(data: seq<bv8>)
    ensures |WordsOf(Bytes(data))| == |data|
    ensures forall j :: 0 <= j < |data| ==> WordsOf(Bytes(data))[j] == ByteWord(data[j])
  {
  }

  lemma WordsOfInts(values: seq<int>)
    ensures |WordsOf(Ints(values))| == |values|
    ensures forall j :: 0 <= j < |values| ==> WordsOf(Ints(values))[j] == Low64(values[j])
  {
    hide Low64;
  }

  lemma WordsOfOne(value: int)
    ensures WordsOf(Word(value)) == [Low64(value)]
  {
    hide Low64;
  }

  /** Known values, which fix the constants, the seed and the order of the arguments. */
  lemma KnownValues()
    ensures SplitMix(0) == 0xE220A8397B1DCDAF && SplitMix(1) == 0x910A2DEC89025CC1
    ensures HashOf([Word(1), Word(2), Word(3)]) == 0x79632F029B09C9E5
  {
    KnownMixes();
    hide SplitMix, Xor;
    var ws := [1, 2, 3];
    Low64Small();
    FlattenWords(1, 2, 3);
    assert ws[..0] + [1] == [1] && [1] + [2] == [1, 2] && [1, 2] + [3] == ws;
    EmptyFold();
    FoldSnoc([], 1);
    FoldSnoc([1], 2);
    FoldSnoc([1, 2], 3);
  }

  lemma KnownMixes()
    ensures SplitMix(0) == 0xE220A8397B1DCDAF && SplitMix(1) == 0x910A2DEC89025CC1
    ensures SplitMix(Xor(SEED, 1)) == 0xADD59EC795AD7F61
    ensures SplitMix(Xor(0xADD59EC795AD7F61, 2)) == 0xF09A2D76C972C159
    ensures SplitMix(Xor(0xF09A2D76C972C159, 3)) == 0x79632F029B09C9E5
  {
  }

  lemma Low64Small()
    ensures Low64(1) == 1 && Low64(2) == 2 && Low64(3) == 3
  {
  }

  lemma FlattenWords(a: int, b: int, c: int)
    ensures Flatten([Word(a), Word(b), Word(c)]) == [Low64(a), Low64(b), Low64(c)]
    ensures Flatten([Ints([a, b, c])]) == [Low64(a), Low64(b), Low64(c)]
  {
    hide Low64;
    var x, y, z := Word(a), Word(b), Word(c);
    assert [x, y, z] == [] + [x] + [y] + [z];
    FlattenSnoc([], x);
    FlattenSnoc([] + [x], y);
    FlattenSnoc([] + [x] + [y], z);
    assert [Ints([a, b, c])] == [] + [Ints([a, b, c])];
    FlattenSnoc([], Ints([a, b, c]));
  }

  // --------------------------------------------------- what the hash tells apart

  /** Mixing a word in loses neither the word nor what was there before. */
  lemma MixInjective(h: bv64, k: bv64, v: bv64, w: bv64)
    ensures SplitMix(Xor(h, v)) == SplitMix(Xor(k, v)) <==> h == k
    ensures SplitMix(Xor(h, v)) == SplitMix(Xor(h, w)) <==> v == w
  {
    hide SplitMix, Unmix;
    SplitMixBijective(Xor(h, v));
    SplitMixBijective(Xor(k, v));
    SplitMixBijective(Xor(h, w));
    XorInjective(h, k, v, w);
  }

  lemma XorInjective(h: bv64, k: bv64, v: bv64, w: bv64)
    ensures Xor(h, v) == Xor(k, v) <==> h == k
    ensures Xor(h, v) == Xor(h, w) <==> v == w
  {
  }

  /** Two lists of words that differ in one place only have different hashes. */
  lemma {:induction false} OnePlaceDecides(ws: seq<bv64>, k: nat, v: bv64, w: bv64)
    requires k < |ws|
    ensures Fold(ws[k := v]) == Fold(ws[k := w]) <==> v == w
  {
    hide SplitMix, Xor;
    var n := |ws| - 1;
    var a, b := ws[k := v], ws[k := w];
    if k < n {
      assert a[..n] == ws[..n][k := v] && b[..n] == ws[..n][k := w];
      OnePlaceDecides(ws[..n], k, v, w);
      MixInjective(Fold(a[..n]), Fold(b[..n]), ws[n], ws[n]);
    } else {
      assert a[..n] == ws[..n] && b[..n] == ws[..n];
      MixInjective(Fold(ws[..n]), Fold(ws[..n]), v, w);
    }
  }

  /** Two byte strings behind the same prefix, of one length and different in one place,
      hash differently. */
  lemma BytesApart(before: seq<Chunk>, data: seq<bv8>, k: nat, v: bv8, w: bv8)
    requires k < |data|
    ensures HashOf(before + [Bytes(data[k := v])]) == HashOf(before + [Bytes(data[k := w])]) <==> v == w
  {
    hide Fold, Low64;
    var f, c := Flatten(before), WordsOf(Bytes(data));
    FlattenSnoc(before, Bytes(data[k := v]));
    FlattenSnoc(before, Bytes(data[k := w]));
    assert f + WordsOf(Bytes(data[k := v])) == (f + c)[|f| + k := ByteWord(v)];
    assert f + WordsOf(Bytes(data[k := w])) == (f + c)[|f| + k := ByteWord(w)];
    OnePlaceDecides(f + c, |f| + k, ByteWord(v), ByteWord(w));
    ByteAsWord(v, w);
  }

  lemma ByteAsWord(v: bv8, w: bv8)
    ensures ByteWord(v) == ByteWord(w) <==> v == w
  {
  }

  /** The same for two lists of integers, up to 64 bits. */
  lemma IntsApart(before: seq<Chunk>, values: seq<int>, k: nat, v: int, w: int)
    requires k < |values|
    ensures HashOf(before + [Ints(values[k := v])]) == HashOf(before + [Ints(values[k := w])]) <==>
      Low64(v) == Low64(w)
  {
    hide Fold, Low64;
    var f, c := Flatten(before), WordsOf(Ints(values));
    FlattenSnoc(before, Ints(values[k := v]));
    FlattenSnoc(before, Ints(values[k := w]));
    assert f + WordsOf(Ints(values[k := v])) == (f + c)[|f| + k := Low64(v)];
    assert f + WordsOf(Ints(values[k := w])) == (f + c)[|f| + k := Low64(w)];
    OnePlaceDecides(f + c, |f| + k, Low64(v), Low64(w));
  }

  // ------------------------------------------------------------------- tokens

  /** The hash of `(nonce, gid, epoch)` before the zero remap. */
  function EpochHash(nonce: int, gid: int, epoch: int): bv64 {
    HashOf([Word(nonce), Word(gid), Word(epoch)])
  }

  function ComputeToken(nonce: int, gid: int, epoch: int): bv64 {
    var h := EpochHash(nonce, gid, epoch);
    if h == 0 then 1 else h
  }

  /** The arguments go in as session, group and epoch. */
  lemma KnownToken()
    ensures ComputeToken(1, 2, 3) == 0x79632F029B09C9E5
  {
    KnownValues();
  }

  /** What precedes the epoch in the hash. */
  function Prefix(nonce: int, gid: int): bv64 { Fold([Low64(nonce), Low64(gid)]) }

  lemma EpochHashIsMix(nonce: int, gid: int, epoch: int)
    ensures EpochHash(nonce, gid, epoch) == SplitMix(Xor(Prefix(nonce, gid), Low64(epoch)))
  {
    hide SplitMix, Low64, Xor, Fold;
    FlattenWords(nonce, gid, epoch);
    FoldSnoc([Low64(nonce), Low64(gid)], Low64(epoch));
    assert [Low64(nonce), Low64(gid)] + [Low64(epoch)] == [Low64(nonce), Low64(gid), Low64(epoch)];
  }

  /** Each of the three arguments decides the hash when the other two are fixed: tokens
      name the session, the group and the epoch. */
  lemma ArgumentsApart(n: int, g: int, e: int, m: int, f: int, d: int)
    ensures EpochHash(n, g, e) == EpochHash(m, g, e) <==> Low64(n) == Low64(m)
    ensures EpochHash(n, g, e) == EpochHash(n, f, e) <==> Low64(g) == Low64(f)
    ensures EpochHash(n, g, e) == EpochHash(n, g, d) <==> Low64(e) == Low64(d)
  {
    FlattenWords(n, g, e);
    FlattenWords(m, g, e);
    FlattenWords(n, f, e);
    FlattenWords(n, g, d);
    hide Fold, Low64, Flatten;
    var ws := [Low64(n), Low64(g), Low64(e)];
    OnePlaceDecides(ws, 0, Low64(n), Low64(m));
    OnePlaceDecides(ws, 1, Low64(g), Low64(f));
    OnePlaceDecides(ws, 2, Low64(e), Low64(d));
    assert ws[0 := Low64(n)] == ws[1 := Low64(g)] == ws[2 := Low64(e)] == ws;
    assert ws[0 := Low64(m)] == [Low64(m), Low64(g), Low64(e)];
    assert ws[1 := Low64(f)] == [Low64(n), Low64(f), Low64(e)];
    assert ws[2 := Low64(d)] == [Low64(n), Low64(g), Low64(d)];
  }

  /** So at one epoch the tokens of two groups of a session, or of one group in two
      sessions, are equal only if the hashes are the 0 and the 1 that the remap merges. */
  lemma TokensNameCalls(n: int, g: int, e: int, m: int, f: int)
    requires (Low64(n) == Low64(m)) != (Low64(g) == Low64(f))
    ensures ComputeToken(n, g, e) == ComputeToken(m, f, e) <==>
      || (EpochHash(n, g, e) == 0 && EpochHash(m, f, e) == 1)
      || (EpochHash(n, g, e) == 1 && EpochHash(m, f, e) == 0)
  {
    hide EpochHash, Low64;
    ArgumentsApart(n, g, e, m, f, e);
    ArgumentsApart(m, g, e, m, f, e);
    assert EpochHash(n, g, e) != EpochHash(m, f, e);
  }

  lemma XorCancels(a: bv64, x: bv64)
    ensures Xor(a, Xor(a, x)) == x
  {
  }

  /** For a fixed session and group the hash of the epoch is injective on 64-bit epochs. */
  lemma EpochHashInjective(nonce: int, gid: int, e: int, f: int)
    requires EpochHash(nonce, gid, e) == EpochHash(nonce, gid, f)
    ensures Low64(e) == Low64(f)
  {
    hide EpochHash, Low64;
    ArgumentsApart(nonce, gid, e, nonce, gid, f);
  }

  /** No token is the zero that fresh signal cells hold. */
  lemma TokenNonzero(nonce: int, gid: int, epoch: int)
    ensures ComputeToken(nonce, gid, epoch) != 0
  {
  }

  /** Exactly when two epochs of one group share a token: they are the same 64-bit epoch,
      or their hashes are the 0 and the 1 that the remap merges. */
  lemma TokenCollision(nonce: int, gid: int, e: int, f: int)
    ensures ComputeToken(nonce, gid, e) == ComputeToken(nonce, gid, f) <==>
      || Low64(e) == Low64(f)
      || (EpochHash(nonce, gid, e) == 0 && EpochHash(nonce, gid, f) == 1)
      || (EpochHash(nonce, gid, e) == 1 && EpochHash(nonce, gid, f) == 0)
  {
    hide SplitMix, Prefix, EpochHash, Low64, Xor;
    if EpochHash(nonce, gid, e) == EpochHash(nonce, gid, f) { EpochHashInjective(nonce, gid, e, f); }
    EpochHashIsMix(nonce, gid, e);
    EpochHashIsMix(nonce, gid, f);
  }

  /** Of three different 64-bit epochs of a group at most two share a token: the merged
      pair is the only one. */
  lemma OneCollisionAtMost(nonce: int, gid: int, e: int, f: int, g: int)
    requires Low64(e) != Low64(f) && Low64(f) != Low64(g) && Low64(e) != Low64(g)
    requires ComputeToken(nonce, gid, e) == ComputeToken(nonce, gid, f)
    ensures ComputeToken(nonce, gid, g) != ComputeToken(nonce, gid, e)
  {
    hide SplitMix, Prefix, EpochHash, Low64, Xor, ComputeToken;
    TokenCollision(nonce, gid, e, f);
    TokenCollision(nonce, gid, g, e);
    TokenCollision(nonce, gid, g, f);
    if EpochHash(nonce, gid, g) == EpochHash(nonce, gid, e) { EpochHashInjective(nonce, gid, g, e); }
    if EpochHash(nonce, gid, g) == EpochHash(nonce, gid, f) { EpochHashInjective(nonce, gid, g, f); }
  }

  /** The merged pair exists for every session and group: tokens are not injective. */
  lemma CollisionExists(nonce: int, gid: int) returns (e: nat, f: nat)
    ensures e < TWO64 && f < TWO64 && e != f
    ensures ComputeToken(nonce, gid, e) == ComputeToken(nonce, gid, f) == 1
  {
    hide SplitMix, Unmix, Prefix, EpochHash, Low64, Xor, ToNat;
    e := EpochHashing(nonce, gid, 0);
    f := EpochHashing(nonce, gid, 1);
  }

  /** Every word is the hash of one 64-bit epoch. */
  lemma EpochHashing(nonce: int, gid: int, y: bv64) returns (e: nat)
    ensures e < TWO64 && EpochHash(nonce, gid, e) == y
  {
    hide SplitMix, Unmix, Prefix, EpochHash, Low64, Xor, ToNat;
    var a := Xor(Prefix(nonce, gid), Unmix(y));
    e := ToNat(a);
    Low64OfNat(a);
    EpochHashIsMix(nonce, gid, e);
    XorCancels(Prefix(nonce, gid), Unmix(y));
    SplitMixBijective(y);
  }

  lemma Low64OfNat(a: bv64)
    ensures Low64(ToNat(a)) == a
  {
    hide ToNat, FromNat;
    SmallMod(ToNat(a));
    FromTo(a);
  }

  /** Different 64-bit epochs stay different. */
  lemma Low64Distinct(e: nat, f: nat)
    requires e < TWO64 && f < TWO64 && Low64(e) == Low64(f)
    ensures e == f
  {
    hide ToNat, FromNat;
    SmallMod(e);
    SmallMod(f);
    ToFrom(e);
    ToFrom(f);
  }

  lemma SmallMod(n: nat)
    requires n < TWO64
    ensures n % TWO64 == n
  {
  }
}
