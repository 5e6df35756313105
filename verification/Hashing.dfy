/** From data keys to lock ids: the byte-string hash and the mixer for 64-bit ids. */
module Hashing {
  import opened LockTypes

  type Key = seq<bv8>

  /** The final remainder, which is where different keys may meet. */
  function ToLock(hash: bv64, lockCount: nat): LockId
    requires lockCount > 0
  {
    Remainder(hash as nat, lockCount)
  }

  function Remainder(x: nat, m: nat): (r: nat)
    requires m > 0
    ensures r < m
  {
    x % m
  }

  // ------------------------------------------------------------------------------------
  // FNV-1a
  // ------------------------------------------------------------------------------------

  function FnvStart(): bv64 { 14695981039346656037 }

  function TimesPrime(x: bv64): bv64 { x * 1099511628211 }

  function UndoPrime(x: bv64): bv64 { x * 0xce96_5057_aff6_957b }

  /** One byte of FNV-1a (section 2 of draft-eastlake-fnv). */
  function FnvStep(hash: bv64, b: bv8): bv64
  {
    TimesPrime(hash ^ (b as bv64))
  }

  function FnvFrom(hash: bv64, key: Key): bv64
    decreases key
  {
    if key == [] then hash else FnvFrom(FnvStep(hash, key[0]), key[1..])
  }

  function Fnv(key: Key): bv64
  {
    FnvFrom(FnvStart(), key)
  }

  lemma ProductIsUndone(x: bv64)
    ensures UndoPrime(x * 1099511628211) == x
  {
  }

  lemma PrimeIsUndone(x: bv64)
    ensures UndoPrime(TimesPrime(x)) == x
  {
    ProductIsUndone(x);
    assert TimesPrime(x) == x * 1099511628211;
  }

  lemma XorIsUndone(h: bv64, b: bv8)
    ensures (h ^ (b as bv64)) ^ (b as bv64) == h
  {
  }

  lemma XorKeepsBytesApart(h: bv64, b: bv8, c: bv8)
    ensures h ^ (b as bv64) == h ^ (c as bv64) ==> b == c
  {
  }

  /** The hash before a byte, from the hash after it. */
  function UndoStep(hash: bv64, b: bv8): bv64
  {
    UndoPrime(hash) ^ (b as bv64)
  }

  lemma StepIsUndone(hash: bv64, b: bv8)
    ensures UndoStep(FnvStep(hash, b), b) == hash
  {
    PrimeIsUndone(hash ^ (b as bv64));
    XorIsUndone(hash, b);
  }

  /** Different bytes lead to different hashes. */
  lemma BytesStayApart(hash: bv64, b: bv8, c: bv8)
    ensures FnvStep(hash, b) == FnvStep(hash, c) ==> b == c
  {
    PrimeIsUndone(hash ^ (b as bv64));
    PrimeIsUndone(hash ^ (c as bv64));
    XorKeepsBytesApart(hash, b, c);
  }

  /** No key makes two hashes meet. */
  lemma {:induction false} FnvKeepsApart(g: bv64, h: bv64, key: Key)
    ensures FnvFrom(g, key) == FnvFrom(h, key) <==> g == h
    decreases key
  {
    if key != [] {
      StepIsUndone(g, key[0]);
      StepIsUndone(h, key[0]);
      FnvKeepsApart(FnvStep(g, key[0]), FnvStep(h, key[0]), key[1..]);
    }
  }

  lemma {:induction false} FnvConcat(hash: bv64, a: Key, b: Key)
    ensures FnvFrom(hash, a + b) == FnvFrom(FnvFrom(hash, a), b)
    decreases a
  {
    if a == [] {
      assert a + b == b;
    } else {
      assert (a + b)[1..] == a[1..] + b;
      FnvConcat(FnvStep(hash, a[0]), a[1..], b);
    }
  }

  predicate DifferOnlyAt(a: Key, b: Key, i: nat)
  {
    |a| == |b| && i < |a| && a[i] != b[i] && a[..i] == b[..i] && a[i + 1..] == b[i + 1..]
  }

  lemma FnvSplit(key: Key, i: nat)
    requires i < |key|
    ensures Fnv(key) == FnvFrom(FnvStep(FnvFrom(FnvStart(), key[..i]), key[i]), key[i + 1..])
  {
    var rest := key[i..];
    assert key == key[..i] + rest && rest[0] == key[i] && rest[1..] == key[i + 1..];
    FnvConcat(FnvStart(), key[..i], rest);
  }

  /** Keys of the same length that differ in exactly one byte have different hashes. */
  lemma OneByteChangesTheHash(a: Key, b: Key, i: nat)
    requires DifferOnlyAt(a, b, i)
    ensures Fnv(a) != Fnv(b)
  {
    FnvSplit(a, i);
    FnvSplit(b, i);
    var h := FnvFrom(FnvStart(), a[..i]);
    BytesStayApart(h, a[i], b[i]);
    FnvKeepsApart(FnvStep(h, a[i]), FnvStep(h, b[i]), a[i + 1..]);
  }

  /** Test vectors of FNV-1a: the empty string, "a" and "foobar" (section 8 of draft-eastlake-fnv). */
  lemma KnownKeys()
    ensures Fnv([]) == 0xcbf2_9ce4_8422_2325
    ensures Fnv([0x61]) == 0xaf63_dc4c_8601_ec8c
    ensures Fnv([0x66, 0x6f, 0x6f, 0x62, 0x61, 0x72]) == 0x8594_4171_f739_67e8
  {
  }

  method HashBytes(key: Key) returns (hash: bv64)
    ensures hash == Fnv(key)
  {
    hash := FnvStart();
    for i := 0 to |key|
      invariant FnvFrom(hash, key[i..]) == Fnv(key)
    {
      assert key[i..][1..] == key[i + 1..] && key[i..][0] == key[i];
      hash := FnvStep(hash, key[i]);
    }
  }

  /** `hash_data_to_lock_id` of a byte string. */
  method HashKey(key: Key, lockCount: nat) returns (l: LockId)
    requires 0 < lockCount <= 0xFFFF_FFFF
    ensures l == ToLock(Fnv(key), lockCount) && l < lockCount
    ensures l == (Fnv(key) as nat) % lockCount
  {
    var hash := HashBytes(key);
    l := ToLock(hash, lockCount);
  }

  // ------------------------------------------------------------------------------------
  // The mixer
  // ------------------------------------------------------------------------------------

  function Fold(x: bv64): bv64 { x ^ (x >> 33) }

  function TimesFirst(x: bv64): bv64 { x * 0xff51_afd7_ed55_8ccd }

  function TimesSecond(x: bv64): bv64 { x * 0xc4ce_b9fe_1a85_ec53 }

  function UndoFirst(x: bv64): bv64 { x * 0x4f74_430c_22a5_4005 }

  function UndoSecond(x: bv64): bv64 { x * 0x9cb4_b2f8_1293_37db }

  function Mix(x: bv64): bv64
  {
    Fold(TimesSecond(Fold(TimesFirst(Fold(x)))))
  }

  function Unmix(y: bv64): bv64
  {
    Fold(UndoFirst(Fold(UndoSecond(Fold(y)))))
  }

  lemma FoldedTwice(x: bv64)
    ensures (x ^ (x >> 33)) ^ ((x ^ (x >> 33)) >> 33) == x
  {
  }

  /** Folding twice changes nothing: the bits folded in the second time are those of the first. */
  lemma FoldIsItsOwnInverse(x: bv64)
    ensures Fold(Fold(x)) == x
  {
    assert Fold(x) == x ^ (x >> 33);
    FoldedTwice(x);
  }

  lemma FirstProducts(x: bv64)
    ensures UndoFirst(x * 0xff51_afd7_ed55_8ccd) == x && TimesFirst(x * 0x4f74_430c_22a5_4005) == x
  {
  }

  lemma SecondProducts(x: bv64)
    ensures UndoSecond(x * 0xc4ce_b9fe_1a85_ec53) == x && TimesSecond(x * 0x9cb4_b2f8_1293_37db) == x
  {
  }

  lemma FirstIsUndone(x: bv64)
    ensures UndoFirst(TimesFirst(x)) == x && TimesFirst(UndoFirst(x)) == x
  {
    FirstProducts(x);
    assert TimesFirst(x) == x * 0xff51_afd7_ed55_8ccd;
    assert UndoFirst(x) == x * 0x4f74_430c_22a5_4005;
  }

  lemma SecondIsUndone(x: bv64)
    ensures UndoSecond(TimesSecond(x)) == x && TimesSecond(UndoSecond(x)) == x
  {
    SecondProducts(x);
    assert TimesSecond(x) == x * 0xc4ce_b9fe_1a85_ec53;
    assert UndoSecond(x) == x * 0x9cb4_b2f8_1293_37db;
  }

  lemma UnmixAfterMix(x: bv64)
    ensures Unmix(Mix(x)) == x
  {
    var a := Fold(TimesFirst(Fold(x)));
    FoldIsItsOwnInverse(TimesSecond(a));
    SecondIsUndone(a);
    FoldIsItsOwnInverse(TimesFirst(Fold(x)));
    FirstIsUndone(Fold(x));
    FoldIsItsOwnInverse(x);
  }

  lemma MixAfterUnmix(y: bv64)
    ensures Mix(Unmix(y)) == y
  {
    var a := Fold(UndoSecond(Fold(y)));
    FoldIsItsOwnInverse(UndoFirst(a));
    FirstIsUndone(a);
    FoldIsItsOwnInverse(UndoSecond(Fold(y)));
    SecondIsUndone(Fold(y));
    FoldIsItsOwnInverse(y);
  }

  /** The mixer is a bijection on 64-bit words: different ids are still different before the remainder. */
  lemma MixIsABijection(x: bv64, y: bv64)
    ensures Mix(x) == y <==> x == Unmix(y)
  {
    UnmixAfterMix(x);
    MixAfterUnmix(y);
  }

  /** Values of the mixer. */
  lemma KnownIds()
    ensures Mix(0) == 0 && Mix(1) == 0xb456_bcfc_34c2_cb2c && Mix(0xffff_ffff_ffff_ffff) == 0x64b5_720b_4b82_5f21
  {
  }

  method MixWord(id: bv64) returns (hash: bv64)
    ensures hash == Mix(id)
  {
    hash := id;
    hash := Fold(hash);
    hash := TimesFirst(hash);
    hash := Fold(hash);
    hash := TimesSecond(hash);
    hash := Fold(hash);
  }

  /** `hash_data_to_lock_id` of a 64-bit id. */
  method HashId(id: bv64, lockCount: nat) returns (l: LockId)
    requires 0 < lockCount <= 0xFFFF_FFFF
    ensures l == ToLock(Mix(id), lockCount) && l < lockCount
    ensures l == (Mix(id) as nat) % lockCount
  {
    var hash := MixWord(id);
    l := ToLock(hash, lockCount);
  }
}
