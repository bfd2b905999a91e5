/** Trace records, and what their stride tokens mean lane by lane. */
module Lanes {
  import opened Common
  import opened Numerals
  import opened Bits
  import opened Sequences

  datatype Group = Group(base: int, pairs: seq<string>)

  datatype Record = Record(
    block: int, pc: string, opcode: string, mask: string, timestamp: int, groups: seq<Group>, sequence: int)

  datatype Lane = Lane(lane: nat, offset: int)

  // ------------------------------------------------------------------ strides

  function Repeat(stride: int, count: nat): (s: seq<int>)
    ensures |s| == count
  {
    seq(count, _ => stride)
  }

  /** The lane-to-lane strides a group's tokens stand for. */
  function Strides(pairs: seq<string>): Result<seq<int>> {
    if pairs == [] then Ok([])
    else
      var run :- ParseStride(pairs[0]);
      var tail :- Strides(pairs[1..]);
      Ok(Repeat(run.stride, run.count) + tail)
  }

  /** The address of `lane` given that of the lane before it. */
  function Advance(strides: seq<int>, address: int, lane: nat): int {
    if lane > 0 && lane - 1 < |strides| then address + strides[lane - 1] else address
  }

  /** Active lanes from number `lane` on; `address` is where the previous lane stands. */
  function OffsetsFrom(mask: nat, strides: seq<int>, address: int, lane: nat): seq<Lane>
    decreases 32 - lane
  {
    if lane >= 32 then []
    else
      var here := Advance(strides, address, lane);
      (if Bit(mask, lane) then [Lane(lane, here)] else []) + OffsetsFrom(mask, strides, here, lane + 1)
  }

  function AddressesFrom(mask: nat, strides: seq<int>, address: int, lane: nat): seq<int>
    decreases 32 - lane
  {
    if lane >= 32 then []
    else
      var here := Advance(strides, address, lane);
      (if Bit(mask, lane) then [here] else []) + AddressesFrom(mask, strides, here, lane + 1)
  }

  /** Result of `active_lane_offsets` on a mask token and a group's stride tokens. */
  function LaneOffsets(mask: string, pairs: seq<string>): Result<seq<Lane>> {
    var m :- ParseHex(mask);
    var strides :- Strides(pairs);
    if |strides| > 31 then Err(TooManyStrides) else Ok(OffsetsFrom(m, strides, 0, 0))
  }

  /** How far `lane` is from lane 0: the sum of the strides leading up to it, as far as there are any. */
  function Distance(strides: seq<int>, lane: nat): int {
    Total(strides[..if lane < |strides| then lane else |strides|])
  }

  /** One step of the running address adds the stride between the two lanes. */
  lemma AdvanceIsDistance(strides: seq<int>, lane: nat)
    ensures Advance(strides, if lane == 0 then 0 else Distance(strides, lane - 1), lane) == Distance(strides, lane)
  {
    if 0 < lane <= |strides| {
      assert strides[..lane][..lane - 1] == strides[..lane - 1];
    }
  }

  /** Exactly the active lanes are listed, each at the sum of the strides before it. */
  lemma {:induction false} OffsetsAre(mask: nat, strides: seq<int>, address: int, lane: nat, x: Lane)
    requires lane <= 32 && address == if lane == 0 then 0 else Distance(strides, lane - 1)
    ensures x in OffsetsFrom(mask, strides, address, lane)
       <==> lane <= x.lane < 32 && Bit(mask, x.lane) && x.offset == Distance(strides, x.lane)
    decreases 32 - lane
  {
    hide Bit;
    if lane < 32 {
      var here := Advance(strides, address, lane);
      AdvanceIsDistance(strides, lane);
      OffsetsAre(mask, strides, here, lane + 1, x);
    }
  }

  ghost predicate Ascending(s: seq<Lane>, lane: nat) {
    && (forall i :: 0 <= i < |s| ==> lane <= s[i].lane < 32)
    && (forall i, j :: 0 <= i < j < |s| ==> s[i].lane < s[j].lane)
  }

  /** ... and they are listed in ascending order. */
  lemma {:induction false} OffsetsAscend(mask: nat, strides: seq<int>, address: int, lane: nat)
    ensures Ascending(OffsetsFrom(mask, strides, address, lane), lane)
    decreases 32 - lane
  {
    hide Bit, Advance;
    if lane < 32 {
      OffsetsAscend(mask, strides, Advance(strides, address, lane), lane + 1);
    }
  }

  function ActiveFrom(mask: nat, lane: nat): seq<int>
    requires lane <= 32
  {
    Filter((i: int) => i >= 0 && Bit(mask, i), Range(32)[lane..])
  }

  function LaneAt(strides: seq<int>): int -> Lane {
    (i: int) => if i < 0 then Lane(0, 0) else Lane(i, Distance(strides, i))
  }

  lemma ActiveFromStep(mask: nat, lane: nat)
    requires lane < 32
    ensures ActiveFrom(mask, lane) == (if Bit(mask, lane) then [lane] else []) + ActiveFrom(mask, lane + 1)
    ensures ActiveFrom(mask, 32) == []
  {
    hide Bit;
    assert Range(32)[lane..][0] == lane && Range(32)[lane..][1..] == Range(32)[lane + 1..] && Range(32)[32..] == [];
  }

  /** The offsets in closed form: the lanes of the set bits in order, each at the sum of the strides before it. */
  lemma {:induction false} OffsetsClosed(mask: nat, strides: seq<int>, address: int, lane: nat)
    requires lane <= 32 && address == if lane == 0 then 0 else Distance(strides, lane - 1)
    ensures OffsetsFrom(mask, strides, address, lane) == Map(LaneAt(strides), ActiveFrom(mask, lane))
    decreases 32 - lane
  {
    hide Bit, Distance, Advance, ActiveFrom;
    ActiveFromStep(mask, if lane < 32 then lane else 0);
    if lane < 32 {
      AdvanceIsDistance(strides, lane);
      OffsetsClosed(mask, strides, Distance(strides, lane), lane + 1);
    }
  }

  lemma {:induction false} AddressesAreBasePlusOffset(mask: nat, strides: seq<int>, base: int, address: int, lane: nat)
    ensures AddressesFrom(mask, strides, base + address, lane)
         == Map((x: Lane) => base + x.offset, OffsetsFrom(mask, strides, address, lane))
    decreases 32 - lane
  {
    if lane < 32 {
      var here := Advance(strides, address, lane);
      assert Advance(strides, base + address, lane) == base + here;
      AddressesAreBasePlusOffset(mask, strides, base, here, lane + 1);
    }
  }

  /** The addresses in closed form. */
  lemma AddressesClosed(mask: nat, strides: seq<int>, base: int)
    ensures AddressesFrom(mask, strides, base, 0)
         == Map((i: int) => base + if i < 0 then 0 else Distance(strides, i), ActiveFrom(mask, 0))
  {
    hide ActiveFrom, AddressesFrom, OffsetsFrom, Distance;
    AddressesAreBasePlusOffset(mask, strides, base, 0, 0);
    OffsetsClosed(mask, strides, 0, 0);
    forall k | 0 <= k < |ActiveFrom(mask, 0)| ensures ActiveFrom(mask, 0)[k] >= 0 {
      ActiveInRange(mask, ActiveFrom(mask, 0)[k]);
    }
  }

  lemma ActiveInRange(mask: nat, i: int)
    requires i in ActiveFrom(mask, 0)
    ensures 0 <= i < 32 && Bit(mask, i)
  {
    hide Bit;
    FilteredFrom((i: int) => i >= 0 && Bit(mask, i), Range(32)[0..], i);
  }

  // ------------------------------------------------------------ runs of strides

  /** The number of strides that the first `i` tokens stand for. */
  function RunStart(pairs: seq<string>, i: nat): nat
    requires i <= |pairs| && StridesReadable(pairs)
  {
    if i == 0 then 0 else RunStart(pairs, i - 1) + ParseStride(pairs[i - 1]).value.count
  }

  predicate StridesReadable(pairs: seq<string>) {
    forall i :: 0 <= i < |pairs| ==> ParseStride(pairs[i]).Ok?
  }

  lemma {:induction false} RunStartShift(pairs: seq<string>, i: nat)
    requires 0 < i <= |pairs| && StridesReadable(pairs)
    ensures StridesReadable(pairs[1..])
    ensures RunStart(pairs, i) == ParseStride(pairs[0]).value.count + RunStart(pairs[1..], i - 1)
  {
    hide ParseStride;
    if i > 1 {
      RunStartShift(pairs, i - 1);
    }
  }

  /** Every token must be readable; each stands for its stride, repeated as often as it says, in their order. */
  lemma {:induction false} StridesAre(pairs: seq<string>)
    ensures Strides(pairs).Ok? <==> StridesReadable(pairs)
    ensures Strides(pairs).Ok? ==> |Strides(pairs).value| == RunStart(pairs, |pairs|)
    ensures Strides(pairs).Ok? ==> forall i, k ::
              0 <= i < |pairs| && RunStart(pairs, i) <= k < RunStart(pairs, i + 1) && k < |Strides(pairs).value| ==>
                Strides(pairs).value[k] == ParseStride(pairs[i]).value.stride
  {
    hide ParseStride;
    if pairs != [] {
      StridesAre(pairs[1..]);
      assert forall i :: 0 < i < |pairs| ==> pairs[i] == pairs[1..][i - 1];
      if StridesReadable(pairs) {
        var n, s := ParseStride(pairs[0]).value.count, Strides(pairs).value;
        RunStartShift(pairs, |pairs|);
        forall i, k | 0 <= i < |pairs| && RunStart(pairs, i) <= k < RunStart(pairs, i + 1) && k < |s|
          ensures s[k] == ParseStride(pairs[i]).value.stride
        {
          RunStartShift(pairs, i + 1);
          if i > 0 {
            RunStartShift(pairs, i);
            assert s[k] == Strides(pairs[1..]).value[k - n] && pairs[i] == pairs[1..][i - 1];
          } else {
            assert RunStart(pairs, 1) == n;
          }
        }
      }
    }
  }

  /**
   * The offsets of a group from its tokens: readable exactly when mask and tokens are and stand for at most
   * 31 strides; exactly the lanes whose mask digit is one are listed, each at the sum of the strides before it.
   */
  lemma LaneOffsetsAre(mask: string, pairs: seq<string>, x: Lane)
    ensures LaneOffsets(mask, pairs).Ok?
       <==> ParseHex(mask).Ok? && StridesReadable(pairs) && RunStart(pairs, |pairs|) <= 31
    ensures LaneOffsets(mask, pairs).Ok? ==>
              (x in LaneOffsets(mask, pairs).value
               <==> && x.lane < 32 && ParseHex(mask).value / Two(x.lane) % 2 == 1
                    && x.offset == Distance(Strides(pairs).value, x.lane))
  {
    hide ParseHex, Strides, OffsetsFrom, RunStart, StridesReadable, Distance, Bit;
    StridesAre(pairs);
    if LaneOffsets(mask, pairs).Ok? {
      OffsetsAre(ParseHex(mask).value, Strides(pairs).value, 0, 0, x);
      BitIs(ParseHex(mask).value, x.lane);
    }
  }

  // ----------------------------------------------- the loops over the 32 lanes

  lemma StridesStep(done: seq<int>, pairs: seq<string>, i: nat)
    requires i < |pairs|
    ensures match ParseStride(pairs[i])
            case Err(e) => Append(done, Strides(pairs[i..])) == Err(e)
            case Ok(run) =>
              Append(done, Strides(pairs[i..])) == Append(done + Repeat(run.stride, run.count), Strides(pairs[i + 1..]))
  {
    assert pairs[i..][1..] == pairs[i + 1..];
    match ParseStride(pairs[i])
    case Err(_) =>
    case Ok(run) =>
      var tail := Strides(pairs[i + 1..]);
      if tail.Ok? {
        assert done + (Repeat(run.stride, run.count) + tail.value)
               == (done + Repeat(run.stride, run.count)) + tail.value;
      }
  }

  method ExpandStrides(pairs: seq<string>) returns (r: Result<seq<int>>)
    ensures r == Strides(pairs)
  {
    hide ParseStride, Append;
    var strides: seq<int> := [];
    AppendEnds([], Strides(pairs));
    assert pairs[0..] == pairs;
    for i := 0 to |pairs|
      invariant Append(strides, Strides(pairs[i..])) == Strides(pairs)
    {
      StridesStep(strides, pairs, i);
      var run :- ParseStride(pairs[i]);
      strides := strides + Repeat(run.stride, run.count);
    }
    AppendEnds(strides, Ok([]));
    return Ok(strides);
  }

  lemma OffsetsStep(done: seq<Lane>, mask: nat, strides: seq<int>, address: int, lane: nat)
    requires lane < 32
    ensures var here := Advance(strides, address, lane);
      done + OffsetsFrom(mask, strides, address, lane)
      == (if Bit(mask, lane) then done + [Lane(lane, here)] else done) + OffsetsFrom(mask, strides, here, lane + 1)
  {
    hide Bit, Advance;
    var here := Advance(strides, address, lane);
    var head, tail := if Bit(mask, lane) then [Lane(lane, here)] else [], OffsetsFrom(mask, strides, here, lane + 1);
    assert OffsetsFrom(mask, strides, address, lane) == head + tail;
    hide OffsetsFrom;
    Associate(done, head, tail);
  }

  lemma AddressesFromStep(done: seq<int>, mask: nat, strides: seq<int>, address: int, lane: nat)
    requires lane < 32
    ensures var here := Advance(strides, address, lane);
      done + AddressesFrom(mask, strides, address, lane)
      == (if Bit(mask, lane) then done + [here] else done) + AddressesFrom(mask, strides, here, lane + 1)
  {
    hide Bit, Advance;
    var here := Advance(strides, address, lane);
    var head, tail := if Bit(mask, lane) then [here] else [], AddressesFrom(mask, strides, here, lane + 1);
    assert AddressesFrom(mask, strides, address, lane) == head + tail;
    hide AddressesFrom;
    Associate(done, head, tail);
  }

  /** `active_lane_offsets` */
  method ActiveLaneOffsets(maskToken: string, pairs: seq<string>) returns (r: Result<seq<Lane>>)
    ensures r == LaneOffsets(maskToken, pairs)
  {
    hide Strides, ParseHex, Bit;
    var mask :- ParseHex(maskToken);
    var strides :- ExpandStrides(pairs);
    if |strides| > 31 {
      return Err(TooManyStrides);
    }
    hide OffsetsFrom;
    var address, result := 0, [];
    for lane := 0 to 32
      invariant result + OffsetsFrom(mask, strides, address, lane) == OffsetsFrom(mask, strides, 0, 0)
    {
      OffsetsStep(result, mask, strides, address, lane);
      address := Advance(strides, address, lane);
      if Bit(mask, lane) {
        result := result + [Lane(lane, address)];
      }
    }
    OffsetsEnd(mask, strides, address);
    assert result == OffsetsFrom(mask, strides, 0, 0);
    return Ok(result);
  }

  lemma OffsetsEnd(mask: nat, strides: seq<int>, address: int)
    ensures OffsetsFrom(mask, strides, address, 32) == [] && AddressesFrom(mask, strides, address, 32) == []
  {
  }

  /** Result of `expand_lane_addresses`: group after group, the address of each active lane. */
  function Addresses(mask: nat, groups: seq<seq<string>>, bases: seq<int>): Result<seq<int>>
    requires |groups| == |bases|
  {
    if groups == [] then Ok([])
    else
      var strides :- Strides(groups[0]);
      if |strides| > 31 then Err(TooManyStrides)
      else
        var tail :- Addresses(mask, groups[1..], bases[1..]);
        Ok(AddressesFrom(mask, strides, bases[0], 0) + tail)
  }

  function LaneAddresses(mask: string, groups: seq<seq<string>>, bases: seq<int>): Result<seq<int>> {
    var m :- ParseHex(mask);
    if |bases| != |groups| then Err(BaseCountMismatch) else Addresses(m, groups, bases)
  }

  lemma AddressesStep(done: seq<int>, mask: nat, groups: seq<seq<string>>, bases: seq<int>, i: nat)
    requires i < |groups| == |bases|
    ensures Append(done, Addresses(mask, groups[i..], bases[i..]))
         == if Strides(groups[i]).Err? then Err(Strides(groups[i]).error)
            else if |Strides(groups[i]).value| > 31 then Err(TooManyStrides)
            else Append(done + AddressesFrom(mask, Strides(groups[i]).value, bases[i], 0),
                        Addresses(mask, groups[i + 1..], bases[i + 1..]))
  {
    hide Strides, AddressesFrom;
    assert groups[i..][1..] == groups[i + 1..] && bases[i..][1..] == bases[i + 1..];
    var tail := Addresses(mask, groups[i + 1..], bases[i + 1..]);
    if Strides(groups[i]).Ok? && tail.Ok? {
      var here := AddressesFrom(mask, Strides(groups[i]).value, bases[i], 0);
      assert done + (here + tail.value) == (done + here) + tail.value;
    }
  }

  /** `expand_lane_addresses` */
  method ExpandLaneAddresses(maskToken: string, groups: seq<seq<string>>, bases: seq<int>) returns (r: Result<seq<int>>)
    ensures r == LaneAddresses(maskToken, groups, bases)
  {
    hide Strides, ParseHex, Bit, Append, AddressesFrom, Advance;
    var mask :- ParseHex(maskToken);
    if |bases| != |groups| {
      return Err(BaseCountMismatch);
    }
    var result: seq<int> := [];
    AppendEnds([], Addresses(mask, groups, bases));
    assert groups[0..] == groups && bases[0..] == bases;
    for i := 0 to |groups|
      invariant Append(result, Addresses(mask, groups[i..], bases[i..])) == Addresses(mask, groups, bases)
    {
      AddressesStep(result, mask, groups, bases, i);
      var strides :- ExpandStrides(groups[i]);
      if |strides| > 31 {
        return Err(TooManyStrides);
      }
      ghost var before := result;
      var address := bases[i];
      for lane := 0 to 32
        invariant result + AddressesFrom(mask, strides, address, lane)
                  == before + AddressesFrom(mask, strides, bases[i], 0)
      {
        AddressesFromStep(result, mask, strides, address, lane);
        address := Advance(strides, address, lane);
        if Bit(mask, lane) {
          result := result + [address];
        }
      }
      OffsetsEnd(mask, strides, address);
      assert result == before + AddressesFrom(mask, strides, bases[i], 0);
    }
    AppendEnds(result, Ok([]));
    return Ok(result);
  }

  // --------------------------------------------------------------- signatures

  /** The structure of an instruction: everything but its bases and its time. */
  datatype Sig = Sig(pc: string, opcode: string, mask: string, offsets: seq<seq<Lane>>)

  function PairsOf(groups: seq<Group>): (p: seq<seq<string>>)
    ensures |p| == |groups| && forall i :: 0 <= i < |p| ==> p[i] == groups[i].pairs
  {
    seq(|groups|, i requires 0 <= i < |groups| => groups[i].pairs)
  }

  /** `address_key` */
  function Bases(groups: seq<Group>): (b: seq<int>)
    ensures |b| == |groups| && forall i :: 0 <= i < |b| ==> b[i] == groups[i].base
  {
    seq(|groups|, i requires 0 <= i < |groups| => groups[i].base)
  }

  function GroupOffsets(mask: string, groups: seq<seq<string>>): (r: Result<seq<seq<Lane>>>)
    ensures r.Ok? ==> |r.value| == |groups|
    ensures r.Ok? ==> forall i :: 0 <= i < |groups| ==> LaneOffsets(mask, groups[i]) == Ok(r.value[i])
  {
    if groups == [] then Ok([])
    else
      var head :- LaneOffsets(mask, groups[0]);
      var tail :- GroupOffsets(mask, groups[1..]);
      Ok([head] + tail)
  }

  /** `signature` */
  function Signature(pc: string, opcode: string, mask: string, groups: seq<seq<string>>): (r: Result<Sig>)
    ensures r.Ok? ==> r.value.pc == pc && r.value.opcode == opcode && r.value.mask == mask
    ensures r.Ok? ==> |r.value.offsets| == |groups|
  {
    var offsets :- GroupOffsets(mask, groups);
    Ok(Sig(pc, opcode, mask, offsets))
  }

  function SignatureOf(r: Record): Result<Sig> {
    Signature(r.pc, r.opcode, r.mask, PairsOf(r.groups))
  }

  /** What the semantic audit sees of a record: its structure and its bases. */
  datatype Event = Event(sig: Sig, bases: seq<int>)

  predicate Readable(r: Record) {
    SignatureOf(r).Ok?
  }

  function SigOf(r: Record): (s: Sig)
    requires Readable(r)
    ensures |s.offsets| == |r.groups|
  {
    SignatureOf(r).value
  }

  function EventOf(r: Record): (e: Result<Event>)
    ensures e.Ok? <==> Readable(r)
    ensures e.Ok? ==> |e.value.bases| == |e.value.sig.offsets|
  {
    var sig :- SignatureOf(r);
    Ok(Event(sig, Bases(r.groups)))
  }

  /** All the addresses an event touches, in the order `expand_lane_addresses` lists them. */
  function EventAddresses(offsets: seq<seq<Lane>>, bases: seq<int>): seq<int>
    requires |offsets| == |bases|
  {
    if offsets == [] then []
    else Map((x: Lane) => bases[0] + x.offset, offsets[0]) + EventAddresses(offsets[1..], bases[1..])
  }

  lemma {:induction false} AddressesOfOffsets(mask: string, groups: seq<seq<string>>, bases: seq<int>)
    requires |groups| == |bases| && GroupOffsets(mask, groups).Ok?
    requires ParseHex(mask).Ok?
    ensures Addresses(ParseHex(mask).value, groups, bases)
         == Ok(EventAddresses(GroupOffsets(mask, groups).value, bases))
  {
    hide ParseHex, Strides, OffsetsFrom, AddressesFrom;
    if groups != [] {
      var m := ParseHex(mask).value;
      var strides := Strides(groups[0]).value;
      var head, tail := LaneOffsets(mask, groups[0]).value, GroupOffsets(mask, groups[1..]).value;
      AddressesAreBasePlusOffset(m, strides, bases[0], 0, 0);
      AddressesOfOffsets(mask, groups[1..], bases[1..]);
      assert ([head] + tail)[1..] == tail;
    }
  }

  /**
   * Equal structure and equal bases force equal lane addresses, whatever stride tokens the two
   * records spell the structure with.
   */
  lemma SameEventSameAddresses(mask: string, a: seq<seq<string>>, b: seq<seq<string>>, bases: seq<int>)
    requires |a| == |b| == |bases| > 0
    requires GroupOffsets(mask, a).Ok? && GroupOffsets(mask, a) == GroupOffsets(mask, b)
    ensures LaneAddresses(mask, a, bases).Ok?
    ensures LaneAddresses(mask, a, bases) == LaneAddresses(mask, b, bases)
    ensures LaneAddresses(mask, a, bases).value == EventAddresses(GroupOffsets(mask, a).value, bases)
  {
    assert LaneOffsets(mask, a[0]).Ok?;
    AddressesOfOffsets(mask, a, bases);
    AddressesOfOffsets(mask, b, bases);
  }
}
