/**
 The satellite blacklist, as four 64-bit masks and as a list of satellite ids.

 A mask is the set of its one bits, numbered from 0 to 63.  The code sets a bit with `1 << n` on an `int`: for n up
 to 30 that is bit n, for n = 31 it is the sign bit and widens to bits 31 to 63, and beyond that
 it is undefined, so the conversion takes the shift as an argument.
 */
module SvBlacklist {

  type Mask = set<nat>

  predicate IsBit(b: nat) { b < 64 }

  /** A mask of 64 bits. */
  ghost predicate Word(m: Mask) { forall b :: b in m ==> IsBit(b) }

  const ZEROS: Mask := {}

  function AllOnes(): Mask { set b: nat | b < 64 && IsBit(b) }

  function SignExtended(): Mask { set b: nat | 31 <= b < 64 && IsBit(b) }

  /** Shifting right by `n` moves bit b to bit b - n and drops the bits below n. */
  function ShiftRight(m: Mask, n: nat): Mask { set b | b in m && b >= n :: b - n }

  /** How `1 << n` behaves once widened to 64 bits, as far as the language says. */
  ghost predicate IntShift(shl: nat -> Mask) {
    (forall n: nat :: n < 31 ==> shl(n) == {n}) && shl(31) == SignExtended()
  }

  datatype SvType = Unknown | Gps | Sbas | Glonass | Qzss | Beidou | Galileo | Navic

  datatype Source = Source(constellation: SvType, svId: nat)

  datatype Config = Config(glo: Mask, bds: Mask, qzss: Mask, gal: Mask)

  ghost predicate Words(config: Config) {
    Word(config.glo) && Word(config.bds) && Word(config.qzss) && Word(config.gal)
  }

  const NONE_BLACKLISTED := Config(ZEROS, ZEROS, ZEROS, ZEROS)

  predicate Maskable(c: SvType) {
    c == Glonass || c == Beidou || c == Qzss || c == Galileo
  }

  function InitialSvId(c: SvType): nat
    requires Maskable(c)
  {
    match c
    case Glonass => 65
    case Beidou => 201
    case Qzss => 193
    case Galileo => 301
  }

  function Slot(config: Config, c: SvType): Mask
    requires Maskable(c)
  {
    match c
    case Glonass => config.glo
    case Beidou => config.bds
    case Qzss => config.qzss
    case Galileo => config.gal
  }

  function WithSlot(config: Config, c: SvType, m: Mask): Config
    requires Maskable(c)
  {
    match c
    case Glonass => config.(glo := m)
    case Beidou => config.(bds := m)
    case Qzss => config.(qzss := m)
    case Galileo => config.(gal := m)
  }

  // ----- mask to list -------------------------------------------------------------

  /** One entry for each set bit below `n`; bit 0 is satellite `initial`. */
  ghost function Entries(m: Mask, n: nat, c: SvType, initial: nat): seq<Source> {
    if n == 0 then []
    else if n - 1 in m then Entries(m, n - 1, c, initial) + [Source(c, n - 1 + initial)]
    else Entries(m, n - 1, c, initial)
  }

  ghost function ListOf(m: Mask, c: SvType): seq<Source>
    requires Maskable(c)
  {
    if m == AllOnes() then [Source(c, 0)] else Entries(m, 64, c, InitialSvId(c))
  }

  lemma {:induction false} EntriesAbove(m: Mask, n: nat, k: nat, c: SvType, initial: nat)
    requires n <= k
    requires forall b :: b in m ==> !(n <= b < k)
    ensures Entries(m, k, c, initial) == Entries(m, n, c, initial)
  {
    if n < k { EntriesAbove(m, n, k - 1, c, initial); }
  }

  method ConvertGnssSvIdMaskToList(mask: Mask, svIds: seq<Source>, initialSvId: nat, svType: SvType)
    returns (list: seq<Source>)
    requires Maskable(svType) && initialSvId == InitialSvId(svType) && Word(mask)
    ensures list == svIds + ListOf(mask, svType)
  {
    list := svIds;
    if mask == AllOnes() {
      return list + [Source(svType, 0)];
    }
    var svIdMask := mask;
    var bitNumber := 0;
    assert ShiftRight(mask, 0) == mask by { ShiftNone(mask); }
    while svIdMask != ZEROS
      invariant bitNumber <= 64
      invariant svIdMask == ShiftRight(mask, bitNumber)
      invariant list == svIds + Entries(mask, bitNumber, svType, initialSvId)
      decreases 64 - bitNumber
    {
      var b :| b in mask && b >= bitNumber;
      assert 0 in svIdMask <==> bitNumber in mask;
      assert ShiftRight(svIdMask, 1) == ShiftRight(mask, bitNumber + 1) by {
        ShiftTwice(mask, bitNumber);
      }
      if 0 in svIdMask {
        list := list + [Source(svType, bitNumber + initialSvId)];
      }
      bitNumber := bitNumber + 1;
      svIdMask := ShiftRight(svIdMask, 1);
    }
    ShiftedOut(mask, bitNumber);
    EntriesAbove(mask, bitNumber, 64, svType, initialSvId);
  }

  lemma ShiftNone(m: Mask)
    ensures ShiftRight(m, 0) == m
  {
    forall x | x in m ensures x in ShiftRight(m, 0) {
      assert x - 0 == x;
    }
  }

  lemma ShiftedOut(m: Mask, n: nat)
    requires ShiftRight(m, n) == {}
    ensures forall b :: b in m ==> b < n
  {
    forall b | b in m ensures b < n {
      assert b >= n ==> b - n in ShiftRight(m, n);
    }
  }

  lemma ShiftTwice(m: Mask, n: nat)
    ensures ShiftRight(ShiftRight(m, n), 1) == ShiftRight(m, n + 1)
  {
    forall x | x in ShiftRight(m, n + 1) ensures x in ShiftRight(ShiftRight(m, n), 1) {
      assert x + 1 in ShiftRight(m, n);
    }
  }

  /** Appends to the target's list, and flags the target if anything is blacklisted at all. */
  method ConvertFromGnssSvIdConfig(config: Config, svIds: seq<Source>, flags: bool)
    returns (list: seq<Source>, flagged: bool)
    requires Words(config)
    ensures list == svIds + ListOfAll(config)
    ensures flagged <==> flags || config != NONE_BLACKLISTED
  {
    hide ListOf;
    list, flagged := svIds, flags;
    EmptyList();
    if config.bds != ZEROS {
      list := ConvertGnssSvIdMaskToList(config.bds, list, InitialSvId(Beidou), Beidou);
      flagged := true;
    }
    if config.gal != ZEROS {
      list := ConvertGnssSvIdMaskToList(config.gal, list, InitialSvId(Galileo), Galileo);
      flagged := true;
    }
    if config.glo != ZEROS {
      list := ConvertGnssSvIdMaskToList(config.glo, list, InitialSvId(Glonass), Glonass);
      flagged := true;
    }
    if config.qzss != ZEROS {
      list := ConvertGnssSvIdMaskToList(config.qzss, list, InitialSvId(Qzss), Qzss);
      flagged := true;
    }
  }

  ghost function ListOfAll(config: Config): seq<Source> {
    ListOf(config.bds, Beidou) + ListOf(config.gal, Galileo) + ListOf(config.glo, Glonass) + ListOf(config.qzss, Qzss)
  }

  lemma EmptyList()
    ensures forall c :: Maskable(c) ==> ListOf(ZEROS, c) == []
  {
    assert 0 in AllOnes();
    forall c | Maskable(c) ensures ListOf(ZEROS, c) == [] {
      EntriesAbove(ZEROS, 0, 64, c, InitialSvId(c));
    }
  }

  // ----- list to masks ------------------------------------------------------------

  /** One entry added to the masks; entries that are not satellites of a mask are ignored. */
  function Apply(config: Config, s: Source, shl: nat -> Mask): Config {
    if !Maskable(s.constellation) then config
    else if s.svId == 0 then WithSlot(config, s.constellation, AllOnes())
    else if s.svId < InitialSvId(s.constellation) || s.svId >= InitialSvId(s.constellation) + 64 then config
    else WithSlot(config, s.constellation,
                  Slot(config, s.constellation) + shl(s.svId - InitialSvId(s.constellation)))
  }

  ghost function ApplyAll(config: Config, list: seq<Source>, shl: nat -> Mask): Config {
    if list == [] then config else Apply(ApplyAll(config, list[..|list| - 1], shl), list[|list| - 1], shl)
  }

  method ConvertToGnssSvIdConfig(list: seq<Source>, config0: Config, shl: nat -> Mask)
    returns (config: Config, retVal: bool)
    ensures list == [] ==> config == NONE_BLACKLISTED && retVal
    ensures list != [] ==> config == ApplyAll(config0, list, shl) && retVal == (config != NONE_BLACKLISTED)
  {
    config := config0;
    if |list| == 0 {
      return NONE_BLACKLISTED, true;
    }
    var i := 0;
    while i < |list|
      invariant 0 <= i <= |list|
      invariant config == ApplyAll(config0, list[..i], shl)
    {
      assert list[..i + 1][..i] == list[..i];
      var source := list[i];
      if Maskable(source.constellation) {
        var initialSvId := InitialSvId(source.constellation);
        if source.svId == 0 {
          config := WithSlot(config, source.constellation, AllOnes());
        } else if source.svId < initialSvId || source.svId >= initialSvId + 64 {
        } else {
          config := WithSlot(config, source.constellation,
                             Slot(config, source.constellation) + shl(source.svId - initialSvId));
        }
      }
      i := i + 1;
    }
    assert list[..i] == list;
    retVal := config.glo != ZEROS || config.bds != ZEROS || config.gal != ZEROS || config.qzss != ZEROS;
  }

  // ----- the list of a mask -------------------------------------------------------

  ghost predicate IsEntry(s: Source, m: Mask, n: nat, c: SvType, initial: nat) {
    s.constellation == c && initial <= s.svId < initial + n && s.svId - initial in m
  }

  ghost predicate AscendingIds(list: seq<Source>) {
    forall i, j :: 0 <= i < j < |list| ==> list[i].svId < list[j].svId
  }

  /** One entry per set bit below `n`, in strictly ascending order. */
  lemma {:induction false} EntriesAre(m: Mask, n: nat, c: SvType, initial: nat)
    ensures AscendingIds(Entries(m, n, c, initial))
    ensures forall s :: s in Entries(m, n, c, initial) <==> IsEntry(s, m, n, c, initial)
  {
    if n > 0 {
      EntriesAre(m, n - 1, c, initial);
      var before, last := Entries(m, n - 1, c, initial), Source(c, n - 1 + initial);
      forall i | 0 <= i < |before| ensures before[i].svId < last.svId {
        assert before[i] in before;
      }
      forall s ensures IsEntry(s, m, n, c, initial) <==>
                         IsEntry(s, m, n - 1, c, initial) || (n - 1 in m && s == last) {
      }
    }
  }

  lemma ListedOf(m: Mask, c: SvType, initial: nat, v: nat)
    requires Maskable(c) && initial == InitialSvId(c)
    ensures Source(c, v) in ListOf(m, c) <==>
              if m == AllOnes() then v == 0 else initial <= v < initial + 64 && v - initial in m
    ensures forall s :: s in ListOf(m, c) ==> s.constellation == c
  {
    EntriesAre(m, 64, c, initial);
    assert IsEntry(Source(c, v), m, 64, c, initial) <==> initial <= v < initial + 64 && v - initial in m;
  }

  /**
   The satellites of the list: of GLONASS 65 to 128, of BEIDOU 201 to 264, of QZSS 193 to 256 and
   of GALILEO 301 to 364, each listed exactly if its bit is set; a mask of all ones is listed as 0.
   */
  lemma ListedSatellites(config: Config, v: nat)
    ensures Source(Glonass, v) in ListOfAll(config) <==>
              if config.glo == AllOnes() then v == 0 else 65 <= v <= 128 && v - 65 in config.glo
    ensures Source(Beidou, v) in ListOfAll(config) <==>
              if config.bds == AllOnes() then v == 0 else 201 <= v <= 264 && v - 201 in config.bds
    ensures Source(Qzss, v) in ListOfAll(config) <==>
              if config.qzss == AllOnes() then v == 0 else 193 <= v <= 256 && v - 193 in config.qzss
    ensures Source(Galileo, v) in ListOfAll(config) <==>
              if config.gal == AllOnes() then v == 0 else 301 <= v <= 364 && v - 301 in config.gal
  {
    ListedOf(config.bds, Beidou, 201, v);
    ListedOf(config.gal, Galileo, 301, v);
    ListedOf(config.glo, Glonass, 65, v);
    ListedOf(config.qzss, Qzss, 193, v);
    hide ListOf, AllOnes;
  }

  // ----- and back -----------------------------------------------------------------

  lemma {:induction false} ApplyConcat(config: Config, xs: seq<Source>, ys: seq<Source>, shl: nat -> Mask)
    ensures ApplyAll(config, xs + ys, shl) == ApplyAll(ApplyAll(config, xs, shl), ys, shl)
  {
    if ys == [] {
      assert xs + ys == xs;
    } else {
      assert (xs + ys)[..|xs + ys| - 1] == xs + ys[..|ys| - 1];
      ApplyConcat(config, xs, ys[..|ys| - 1], shl);
    }
  }

  lemma ApplyLast(config: Config, list: seq<Source>, s: Source, shl: nat -> Mask)
    ensures ApplyAll(config, list + [s], shl) == Apply(ApplyAll(config, list, shl), s, shl)
  {
    assert (list + [s])[..|list|] == list;
  }

  ghost function Below(m: Mask, n: nat): Mask {
    set b | b in m && b < n
  }

  lemma {:induction false} ApplyEntries(config: Config, m: Mask, n: nat, c: SvType, shl: nat -> Mask)
    requires n <= 64 && Maskable(c) && IntShift(shl)
    requires Slot(config, c) == ZEROS && (forall b :: b in m ==> !(31 <= b < n))
    ensures ApplyAll(config, Entries(m, n, c, InitialSvId(c)), shl) == WithSlot(config, c, Below(m, n))
  {
    hide ApplyAll, Apply, Slot, WithSlot;
    if n == 0 {
      ApplyNone(config, m, c, shl);
    } else {
      ApplyEntries(config, m, n - 1, c, shl);
      if n - 1 in m {
        ApplyLast(config, Entries(m, n - 1, c, InitialSvId(c)), Source(c, n - 1 + InitialSvId(c)), shl);
        ApplyBit(config, c, Below(m, n - 1), n - 1, shl);
        assert Below(m, n - 1) + {n - 1} == Below(m, n);
      } else {
        assert Below(m, n - 1) == Below(m, n);
      }
    }
  }

  lemma ApplyNone(config: Config, m: Mask, c: SvType, shl: nat -> Mask)
    requires Maskable(c) && Slot(config, c) == ZEROS
    ensures ApplyAll(config, [], shl) == WithSlot(config, c, Below(m, 0))
  {
    assert Below(m, 0) == ZEROS;
  }

  lemma ApplyBit(config: Config, c: SvType, m: Mask, k: nat, shl: nat -> Mask)
    requires Maskable(c) && IntShift(shl) && k < 31
    ensures Apply(WithSlot(config, c, m), Source(c, k + InitialSvId(c)), shl) == WithSlot(config, c, m + {k})
  {
  }

  /** The masks the conversions are faithful on: everything, or only bits 0 to 30. */
  predicate Faithful(m: Mask) {
    m == AllOnes() || LowBits(m)
  }

  predicate LowBits(m: Mask) {
    forall b :: b in m ==> b < 31
  }

  lemma ApplyList(config: Config, m: Mask, c: SvType, shl: nat -> Mask)
    requires Maskable(c) && IntShift(shl) && Slot(config, c) == ZEROS && Faithful(m) && Word(m)
    ensures ApplyAll(config, ListOf(m, c), shl) == WithSlot(config, c, m)
  {
    if m == AllOnes() {
      assert [Source(c, 0)][..0] == [];
      assert ApplyAll(config, [], shl) == config;
    } else {
      ApplyEntries(config, m, 64, c, shl);
      assert Below(m, 64) == m;
    }
  }

  ghost predicate RoundTrips(config: Config, shl: nat -> Mask) {
    ApplyAll(NONE_BLACKLISTED, ListOfAll(config), shl) == config
  }

  lemma FaithfulRoundTrips(config: Config, shl: nat -> Mask)
    requires IntShift(shl) && Words(config)
    requires Faithful(config.glo) && Faithful(config.bds) && Faithful(config.qzss) && Faithful(config.gal)
    ensures RoundTrips(config, shl)
  {
    var b, g, l, q := ListOf(config.bds, Beidou), ListOf(config.gal, Galileo),
                      ListOf(config.glo, Glonass), ListOf(config.qzss, Qzss);
    ApplyConcat(NONE_BLACKLISTED, b + g + l, q, shl);
    ApplyConcat(NONE_BLACKLISTED, b + g, l, shl);
    ApplyConcat(NONE_BLACKLISTED, b, g, shl);
    var c1 := WithSlot(NONE_BLACKLISTED, Beidou, config.bds);
    var c2 := WithSlot(c1, Galileo, config.gal);
    var c3 := WithSlot(c2, Glonass, config.glo);
    ApplyList(NONE_BLACKLISTED, config.bds, Beidou, shl);
    ApplyList(c1, config.gal, Galileo, shl);
    ApplyList(c2, config.glo, Glonass, shl);
    ApplyList(c3, config.qzss, Qzss, shl);
  }

  // ----- and when it is not faithful ----------------------------------------------

  /** A shift the language allows: whatever it does not define sets every bit. */
  function WorstOf(n: nat): Mask {
    if n < 31 then {n} else if n == 31 then SignExtended() else AllOnes()
  }

  ghost function Worst(): nat -> Mask {
    n => WorstOf(n)
  }

  /** What an entry of the list says of bit `i` of the mask of `c`. */
  ghost predicate Sets(s: Source, shl: nat -> Mask, c: SvType, i: nat)
    requires Maskable(c)
  {
    && s.constellation == c
    && (s.svId == 0 || (InitialSvId(c) <= s.svId < InitialSvId(c) + 64 && i in shl(s.svId - InitialSvId(c))))
  }

  /**
   Whatever the list, a bit is set afterwards exactly if it was before or some entry sets it:
   an entry of 0 sets them all, and one outside the constellation's satellites sets none.
   */
  lemma {:induction false} MaskOfListIff(config: Config, list: seq<Source>, shl: nat -> Mask, c: SvType, i: nat)
    requires Maskable(c) && IsBit(i)
    ensures i in Slot(ApplyAll(config, list, shl), c) <==>
              i in Slot(config, c) || exists k :: 0 <= k < |list| && Sets(list[k], shl, c, i)
  {
    if list != [] {
      var before, s := list[..|list| - 1], list[|list| - 1];
      MaskOfListIff(config, before, shl, c, i);
      assert forall k :: 0 <= k < |before| ==> before[k] == list[k];
      ApplyIff(ApplyAll(config, before, shl), s, shl, c, i);
      hide Apply, Sets, Slot;
    }
  }

  lemma ApplyIff(config: Config, s: Source, shl: nat -> Mask, c: SvType, i: nat)
    requires Maskable(c) && IsBit(i)
    ensures i in Slot(Apply(config, s, shl), c) <==> i in Slot(config, c) || Sets(s, shl, c, i)
  {
  }

  lemma {:induction false} BitsStay(config: Config, list: seq<Source>, shl: nat -> Mask, c: SvType, i: nat)
    requires Maskable(c) && IsBit(i) && i in Slot(config, c)
    ensures i in Slot(ApplyAll(config, list, shl), c)
  {
    if list != [] { BitsStay(config, list[..|list| - 1], shl, c, i); }
  }

  /** An entry anywhere in the list leaves the bits of its shift set. */
  lemma EntrySetsBits(config: Config, list: seq<Source>, shl: nat -> Mask, c: SvType, k: nat, i: nat)
    requires Maskable(c) && k < 64 && IsBit(i) && Source(c, k + InitialSvId(c)) in list && i in shl(k)
    ensures i in Slot(ApplyAll(config, list, shl), c)
  {
    var at :| 0 <= at < |list| && list[at] == Source(c, k + InitialSvId(c));
    var before, rest := list[..at + 1], list[at + 1..];
    assert before + rest == list && before[..at] == list[..at];
    ApplyConcat(config, before, rest, shl);
    BitsStay(ApplyAll(config, before, shl), rest, shl, c, i);
  }

  /** A mask with a bit above 30, not all ones, gains a bit it did not have. */
  lemma UnfaithfulGains(config: Config, c: SvType, list: seq<Source>) returns (i: nat)
    requires Maskable(c) && !Faithful(Slot(config, c)) && Word(Slot(config, c))
    requires forall s :: s in ListOf(Slot(config, c), c) ==> s in list
    ensures i !in Slot(config, c) && i in Slot(ApplyAll(NONE_BLACKLISTED, list, Worst()), c)
  {
    var m := Slot(config, c);
    EntriesAre(m, 64, c, InitialSvId(c));
    hide Entries, ApplyAll;
    var k :| k in m && k >= 31;
    if h :| h in m && h > 31 { k := h; }
    if k > 31 {
      i :| i in AllOnes() && i !in m;
    } else {
      i := 32;
    }
    assert IsEntry(Source(c, k + InitialSvId(c)), m, 64, c, InitialSvId(c));
    EntrySetsBits(NONE_BLACKLISTED, list, Worst(), c, k, i);
  }

  /**
   Converting four masks to a list and back is guaranteed to give the same masks exactly when
   each of them is all ones or uses only its bits 0 to 30.
   */
  lemma RoundTripIff(config: Config)
    requires Words(config)
    ensures (forall shl: nat -> Mask :: IntShift(shl) ==> RoundTrips(config, shl))
            <==> (Faithful(config.glo) && Faithful(config.bds) && Faithful(config.qzss) && Faithful(config.gal))
  {
    if Faithful(config.glo) && Faithful(config.bds) && Faithful(config.qzss) && Faithful(config.gal) {
      forall shl: nat -> Mask | IntShift(shl) ensures RoundTrips(config, shl) {
        FaithfulRoundTrips(config, shl);
      }
    } else {
      var c := if !Faithful(config.glo) then Glonass else if !Faithful(config.bds) then Beidou
               else if !Faithful(config.qzss) then Qzss else Galileo;
      var i := UnfaithfulGains(config, c, ListOfAll(config));
      assert IntShift(Worst()) && !RoundTrips(config, Worst());
    }
  }
}
