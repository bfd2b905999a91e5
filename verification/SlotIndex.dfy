/**
 * The structural index of one CTA's records. A record's slot is its signature together with its rank
 * among the records of the same signature, ordered by bases, timestamp and source sequence.
 */
module SlotIndex {
  import opened Common
  import opened Sequences
  import opened Order
  import opened Lanes

  datatype Slot = Slot(sig: Sig, rank: nat)

  datatype Index = Index(bySequence: map<int, Slot>, bySlot: map<Slot, Record>)

  /** Records of one signature are ranked by their bases, then their time, then their source sequence. */
  function Key(r: Record): seq<int> {
    Bases(r.groups) + [r.timestamp, r.sequence]
  }

  function SameSig(sig: Sig): Record -> bool {
    (r: Record) => SignatureOf(r) == Ok(sig)
  }

  /** The records of one signature in rank order. */
  function Bucket(records: seq<Record>, sig: Sig): seq<Record> {
    SortBy(Key, Filter(SameSig(sig), records))
  }

  function Precedes(r: Record): Record -> bool {
    (x: Record) => SignatureOf(x) == SignatureOf(r) && LexLess(Key(x), Key(r))
  }

  /** How many records of the same signature come before `r`. */
  function Rank(records: seq<Record>, r: Record): nat {
    Count(Precedes(r), records)
  }

  function SlotOf(records: seq<Record>, r: Record): Slot
    requires Readable(r)
  {
    Slot(SigOf(r), Rank(records, r))
  }

  predicate AllReadable(records: seq<Record>) {
    forall i :: 0 <= i < |records| ==> Readable(records[i])
  }

  predicate DistinctSequences(records: seq<Record>) {
    forall i, j :: 0 <= i < j < |records| ==> records[i].sequence != records[j].sequence
  }

  predicate Indexable(records: seq<Record>) {
    AllReadable(records) && DistinctSequences(records)
  }

  // ------------------------------------------------------- ranks and buckets

  lemma {:induction false} CountOfFilter<T>(p: T -> bool, q: T -> bool, xs: seq<T>)
    requires forall x :: p(x) ==> q(x)
    ensures Count(p, Filter(q, xs)) == Count(p, xs)
  {
    if xs != [] {
      CountOfFilter(p, q, xs[1..]);
      assert ([xs[0]] + Filter(q, xs[1..]))[1..] == Filter(q, xs[1..]);
    }
  }

  lemma {:induction false} CountPrefix<T>(p: T -> bool, xs: seq<T>, k: nat)
    requires k <= |xs|
    requires forall i :: 0 <= i < |xs| ==> (p(xs[i]) <==> i < k)
    ensures Count(p, xs) == k
  {
    if xs != [] {
      assert p(xs[0]) <==> 0 < k;
      forall i | 0 <= i < |xs| - 1 ensures p(xs[1..][i]) <==> i < (if k == 0 then 0 else k - 1) {
        assert p(xs[i + 1]) <==> i + 1 < k;
      }
      CountPrefix(p, xs[1..], if k == 0 then 0 else k - 1);
    }
  }

  lemma KeysTellApart(a: Record, b: Record)
    requires |a.groups| == |b.groups| && a.sequence != b.sequence
    ensures Key(a) != Key(b)
  {
    assert Key(a)[|a.groups| + 1] == a.sequence && Key(b)[|b.groups| + 1] == b.sequence;
  }

  lemma SameSigSameGroups(a: Record, b: Record)
    requires Readable(a) && SignatureOf(a) == SignatureOf(b)
    ensures |a.groups| == |b.groups|
  {
    assert |SigOf(a).offsets| == |a.groups| && |SigOf(b).offsets| == |b.groups|;
  }

  lemma SequencesMakeDistinct(records: seq<Record>)
    requires DistinctSequences(records)
    ensures Distinct(records)
  {
    forall i, j | 0 <= i < j < |records| ensures records[i] != records[j] {
      assert records[i].sequence != records[j].sequence;
    }
  }

  lemma BucketMembers(records: seq<Record>, sig: Sig)
    ensures forall x :: x in Bucket(records, sig) <==> x in records && SignatureOf(x) == Ok(sig)
    ensures |Bucket(records, sig)| == |Filter(SameSig(sig), records)|
    ensures SortedBy(Key, Bucket(records, sig))
  {
    var f := Filter(SameSig(sig), records);
    FilterMembers(SameSig(sig), records);
    SortByPermutes(Key, f);
    SortBySorts(Key, f);
  }

  lemma BucketKeysDistinct(records: seq<Record>, sig: Sig)
    requires Indexable(records)
    ensures KeysDistinct(Key, Bucket(records, sig)) && Distinct(Bucket(records, sig))
  {
    hide SignatureOf, Key, SortBy;
    var b, f := Bucket(records, sig), Filter(SameSig(sig), records);
    BucketMembers(records, sig);
    SequencesMakeDistinct(records);
    FilterDistinct(SameSig(sig), records);
    SortByPermutes(Key, f);
    PermutationDistinct(f, b);
    forall i, j | 0 <= i < j < |b| ensures Key(b[i]) != Key(b[j]) {
      assert b[i] in b && b[j] in b;
      assert b[i].sequence != b[j].sequence;
      assert Readable(b[i]);
      SameSigSameGroups(b[i], b[j]);
      KeysTellApart(b[i], b[j]);
    }
  }

  /** Rank in the whole list and place in the bucket are the same number. */
  lemma RankOfBucketPlace(records: seq<Record>, sig: Sig, k: nat)
    requires Indexable(records) && k < |Bucket(records, sig)|
    ensures var r := Bucket(records, sig)[k]; r in records && SignatureOf(r) == Ok(sig) && Rank(records, r) == k
  {
    hide SignatureOf, Key, SortBy, LexLess;
    var b, f := Bucket(records, sig), Filter(SameSig(sig), records);
    var r := b[k];
    BucketMembers(records, sig);
    BucketKeysDistinct(records, sig);
    assert r in b;
    CountOfFilter(Precedes(r), SameSig(sig), records);
    SortByPermutes(Key, f);
    CountPermutation(Precedes(r), f, b);
    forall i | 0 <= i < |b| ensures Precedes(r)(b[i]) <==> i < k {
      assert b[i] in b;
      StrictlySorted(b, i, k);
    }
    CountPrefix(Precedes(r), b, k);
  }

  lemma StrictlySorted(b: seq<Record>, i: nat, k: nat)
    requires SortedBy(Key, b) && KeysDistinct(Key, b) && i < |b| && k < |b|
    ensures LexLess(Key(b[i]), Key(b[k])) <==> i < k
  {
    hide LexLess, Key;
    if i < k {
      LexTotal(Key(b[i]), Key(b[k]));
    } else if k < i {
      assert LexLeq(Key(b[k]), Key(b[i]));
    } else {
      LexIrreflexive(Key(b[k]));
    }
  }

  lemma BucketPlaceOfRank(records: seq<Record>, r: Record)
    requires Indexable(records) && r in records
    ensures Readable(r)
    ensures Rank(records, r) < |Bucket(records, SigOf(r))|
    ensures Bucket(records, SigOf(r))[Rank(records, r)] == r
  {
    hide SignatureOf, Rank, Bucket;
    assert Readable(r);
    var b := Bucket(records, SigOf(r));
    BucketMembers(records, SigOf(r));
    var k :| 0 <= k < |b| && b[k] == r;
    RankOfBucketPlace(records, SigOf(r), k);
  }

  /** Under one signature, ranks follow the bases, then the time, then the source sequence. */
  lemma RanksFollowBases(records: seq<Record>, a: Record, b: Record)
    requires Indexable(records) && a in records && b in records && SignatureOf(a) == SignatureOf(b)
    ensures Rank(records, a) < Rank(records, b)
       <==> LexLess(Bases(a.groups) + [a.timestamp, a.sequence], Bases(b.groups) + [b.timestamp, b.sequence])
  {
    hide SignatureOf, Rank, Bucket, LexLess;
    BucketPlaceOfRank(records, a);
    BucketPlaceOfRank(records, b);
    BucketMembers(records, SigOf(a));
    BucketKeysDistinct(records, SigOf(a));
    StrictlySorted(Bucket(records, SigOf(a)), Rank(records, a), Rank(records, b));
  }

  // ---------------------------------------------------------------- the index

  function Slots(records: seq<Record>): (slots: set<Slot>)
    requires Indexable(records)
  {
    set r | r in records :: SlotOf(records, r)
  }

  lemma SlotsAreRanks(records: seq<Record>, s: Slot)
    requires Indexable(records)
    ensures s in Slots(records) <==> s.rank < |Bucket(records, s.sig)|
  {
    hide SignatureOf, Rank, Bucket;
    if s in Slots(records) {
      var r :| r in records && s == SlotOf(records, r);
      BucketPlaceOfRank(records, r);
    }
    if s.rank < |Bucket(records, s.sig)| {
      RankOfBucketPlace(records, s.sig, s.rank);
      var r := Bucket(records, s.sig)[s.rank];
      assert SlotOf(records, r) == s;
    }
  }

  function RecordAt(records: seq<Record>, s: Slot): (r: Record)
    requires Indexable(records) && s in Slots(records)
    ensures r in records && Readable(r) && SlotOf(records, r) == s
  {
    SlotsAreRanks(records, s);
    RankOfBucketPlace(records, s.sig, s.rank);
    Bucket(records, s.sig)[s.rank]
  }

  /** What `indexed_records` returns for records with distinct source sequences. */
  function IndexOf(records: seq<Record>): Index
    requires Indexable(records)
  {
    Index(map r | r in records :: r.sequence := SlotOf(records, r),
          map s | s in Slots(records) :: RecordAt(records, s))
  }

  /** Records and slots determine each other. */
  lemma IndexBijection(records: seq<Record>)
    requires Indexable(records)
    ensures var ix := IndexOf(records);
      && (forall r :: r in records ==> r.sequence in ix.bySequence && ix.bySequence[r.sequence] in ix.bySlot
                                       && ix.bySlot[ix.bySequence[r.sequence]] == r)
      && (forall s :: s in ix.bySlot ==> ix.bySlot[s] in records && ix.bySlot[s].sequence in ix.bySequence
                                         && ix.bySequence[ix.bySlot[s].sequence] == s)
  {
    hide SignatureOf, Rank, Bucket;
    var ix := IndexOf(records);
    forall r | r in records
      ensures r.sequence in ix.bySequence && ix.bySequence[r.sequence] in ix.bySlot
      ensures ix.bySlot[ix.bySequence[r.sequence]] == r
    {
      SlotDeterminesRecord(records, r);
    }
  }

  lemma SlotDeterminesRecord(records: seq<Record>, r: Record)
    requires Indexable(records) && r in records
    ensures Readable(r) && SlotOf(records, r) in Slots(records) && RecordAt(records, SlotOf(records, r)) == r
  {
    BucketPlaceOfRank(records, r);
  }

  /** The ranks in use under a signature are 0, 1, ..., n-1 for the n records that carry it. */
  lemma RanksAreInitialSegment(records: seq<Record>, sig: Sig, k: nat)
    requires Indexable(records)
    ensures Slot(sig, k) in IndexOf(records).bySlot <==> k < multiset(Map(SignatureOf, records))[Ok(sig)]
  {
    hide SignatureOf, Bucket;
    SlotsAreRanks(records, Slot(sig, k));
    BucketSize(records, sig);
  }

  lemma BucketSize(records: seq<Record>, sig: Sig)
    ensures |Bucket(records, sig)| == multiset(Map(SignatureOf, records))[Ok(sig)]
  {
    BucketMembers(records, sig);
    FilterSize(records, sig);
  }

  lemma {:induction false} FilterSize(records: seq<Record>, sig: Sig)
    ensures |Filter(SameSig(sig), records)| == multiset(Map(SignatureOf, records))[Ok(sig)]
  {
    hide SignatureOf;
    if records != [] {
      FilterSize(records[1..], sig);
      assert Map(SignatureOf, records) == [SignatureOf(records[0])] + Map(SignatureOf, records[1..]);
    }
  }

  lemma SlotIgnoresOrder(a: seq<Record>, b: seq<Record>, r: Record)
    requires multiset(a) == multiset(b) && Readable(r)
    ensures SlotOf(a, r) == SlotOf(b, r)
  {
    CountPermutation(Precedes(r), a, b);
  }

  lemma SlotsIgnoreOrder(a: seq<Record>, b: seq<Record>)
    requires Indexable(a) && Indexable(b) && multiset(a) == multiset(b)
    ensures Slots(a) == Slots(b)
    ensures forall s :: s in Slots(a) ==> RecordAt(a, s) == RecordAt(b, s)
  {
    hide SignatureOf, Bucket, SlotOf;
    PermutationLength(a, b);
    forall r | r in a ensures Readable(r) && SlotOf(a, r) == SlotOf(b, r) {
      SlotIgnoresOrder(a, b, r);
    }
    forall s ensures s in Slots(a) <==> s in Slots(b) {
    }
    forall s | s in Slots(a) ensures RecordAt(a, s) == RecordAt(b, s) {
      SlotDeterminesRecord(b, RecordAt(a, s));
    }
  }

  /** The index depends on the records alone, not on the order they are listed in. */
  lemma IndexIgnoresOrder(a: seq<Record>, b: seq<Record>)
    requires Indexable(a) && Indexable(b) && multiset(a) == multiset(b)
    ensures IndexOf(a) == IndexOf(b)
  {
    hide SignatureOf, Slots, RecordAt, SlotOf;
    PermutationLength(a, b);
    SlotsIgnoreOrder(a, b);
    assert IndexOf(a).bySlot == IndexOf(b).bySlot;
    var m, n := IndexOf(a).bySequence, IndexOf(b).bySequence;
    forall k ensures k in m <==> k in n {
    }
    forall r | r in a ensures Readable(r) && m[r.sequence] == n[r.sequence] {
      SlotIgnoresOrder(a, b, r);
    }
  }

  /** Grouping CTAs by slot set is grouping them by the multiset of their signatures. */
  lemma SameSlotsSameSignatures(a: seq<Record>, b: seq<Record>)
    requires Indexable(a) && Indexable(b)
    ensures Slots(a) == Slots(b) <==> multiset(Map(SignatureOf, a)) == multiset(Map(SignatureOf, b))
  {
    hide SignatureOf, Bucket, Slots;
    var m, n := multiset(Map(SignatureOf, a)), multiset(Map(SignatureOf, b));
    if Slots(a) == Slots(b) {
      forall s ensures m[s] == n[s] {
        if s.Ok? {
          BucketSize(a, s.value);
          BucketSize(b, s.value);
          SlotsAreRanks(a, Slot(s.value, m[s]));
          SlotsAreRanks(b, Slot(s.value, m[s]));
          SlotsAreRanks(a, Slot(s.value, n[s]));
          SlotsAreRanks(b, Slot(s.value, n[s]));
        } else {
          NoUnreadable(a, s);
          NoUnreadable(b, s);
        }
      }
      assert m == n;
    }
    if m == n {
      forall s ensures s in Slots(a) <==> s in Slots(b) {
        SlotsAreRanks(a, s);
        SlotsAreRanks(b, s);
        BucketSize(a, s.sig);
        BucketSize(b, s.sig);
      }
    }
  }

  lemma NoUnreadable(records: seq<Record>, s: Result<Sig>)
    requires AllReadable(records) && s.Err?
    ensures multiset(Map(SignatureOf, records))[s] == 0
  {
    forall i | 0 <= i < |records| ensures Map(SignatureOf, records)[i] != s {
      assert Readable(records[i]);
    }
    assert s !in Map(SignatureOf, records);
  }

  // ------------------------------------------------- filling the dictionaries

  lemma BucketGrows(records: seq<Record>, i: nat, sig: Sig)
    requires i < |records|
    ensures Filter(SameSig(sig), records[..i + 1])
         == Filter(SameSig(sig), records[..i]) + if SignatureOf(records[i]) == Ok(sig) then [records[i]] else []
  {
    hide SignatureOf;
    assert records[..i + 1] == records[..i] + [records[i]];
    FilterAppend(SameSig(sig), records[..i], [records[i]]);
    assert Filter(SameSig(sig), [records[i]]) == (if SameSig(sig)(records[i]) then [records[i]] else []) + [];
  }

  ghost predicate Buckets(m: map<Sig, seq<Record>>, records: seq<Record>) {
    forall sig :: if sig in m then m[sig] == Filter(SameSig(sig), records) && m[sig] != []
                  else Filter(SameSig(sig), records) == []
  }

  lemma NoBuckets()
    ensures Buckets(map[], [])
  {
  }

  method BucketBySignature(records: seq<Record>) returns (r: Result<map<Sig, seq<Record>>>)
    ensures r.Ok? <==> AllReadable(records)
    ensures r.Ok? ==> Buckets(r.value, records)
  {
    hide SignatureOf, Filter;
    var buckets: map<Sig, seq<Record>> := map[];
    assert records[..0] == [];
    NoBuckets();
    for i := 0 to |records|
      invariant AllReadable(records[..i]) && Buckets(buckets, records[..i])
    {
      var s := SignatureOf(records[i]);
      if s.Err? {
        assert !Readable(records[i]);
        return Err(s.error);
      }
      var sig := s.value;
      buckets := buckets[sig := (if sig in buckets then buckets[sig] else []) + [records[i]]];
      forall other {
        BucketGrows(records, i, other);
      }
      assert Readable(records[i]);
    }
    assert records[..|records|] == records;
    return Ok(buckets);
  }

  function SlotMap(records: seq<Record>, slots: set<Slot>): map<Slot, Record>
    requires Indexable(records) && slots <= Slots(records)
  {
    map s | s in slots :: RecordAt(records, s)
  }

  function SequenceMap(records: seq<Record>, slots: set<Slot>): map<int, Slot>
    requires Indexable(records) && slots <= Slots(records)
  {
    map s | s in slots :: RecordAt(records, s).sequence := s
  }

  lemma AllSlotsDone(records: seq<Record>)
    requires Indexable(records)
    ensures IndexOf(records) == Index(SequenceMap(records, Slots(records)), SlotMap(records, Slots(records)))
  {
    hide SignatureOf, SlotOf, RecordAt, Slots;
    var m, n := IndexOf(records).bySequence, SequenceMap(records, Slots(records));
    forall r | r in records ensures r.sequence in n && n[r.sequence] == SlotOf(records, r) {
      SlotDeterminesRecord(records, r);
    }
    forall k | k in n ensures k in m {
    }
    assert m == n;
  }

  /** Enters the slots of one bucket, rank by rank. */
  method EnterBucket(records: seq<Record>, sig: Sig, ordered: seq<Record>, ix: Index, ghost done: set<Slot>)
    returns (r: Index, ghost now: set<Slot>)
    requires Indexable(records) && ordered == Bucket(records, sig)
    requires done <= Slots(records) && ix == Index(SequenceMap(records, done), SlotMap(records, done))
    ensures now == done + set s | s in Slots(records) && s.sig == sig
    ensures r == Index(SequenceMap(records, now), SlotMap(records, now))
  {
    hide SignatureOf, Bucket, Slots, SlotOf;
    r, now := ix, done;
    for rank := 0 to |ordered|
      invariant now <= Slots(records) && r == Index(SequenceMap(records, now), SlotMap(records, now))
      invariant now == done + set s | s in Slots(records) && s.sig == sig && s.rank < rank
    {
      var slot := Slot(sig, rank);
      SlotsAreRanks(records, slot);
      assert RecordAt(records, slot) == ordered[rank] by {
        RankOfBucketPlace(records, sig, rank);
        SlotDeterminesRecord(records, ordered[rank]);
        SlotFromParts(records, ordered[rank], sig, rank);
      }
      EnterSlot(records, now, slot);
      r := Index(r.bySequence[ordered[rank].sequence := slot], r.bySlot[slot := ordered[rank]]);
      now := now + {slot};
    }
    forall s | s in Slots(records) && s.sig == sig ensures s.rank < |ordered| {
      SlotsAreRanks(records, s);
    }
  }

  lemma SlotFromParts(records: seq<Record>, r: Record, sig: Sig, rank: nat)
    requires SignatureOf(r) == Ok(sig) && Rank(records, r) == rank
    ensures Readable(r) && SlotOf(records, r) == Slot(sig, rank)
  {
  }

  lemma EnterSlot(records: seq<Record>, done: set<Slot>, s: Slot)
    requires Indexable(records) && done <= Slots(records) && s in Slots(records)
    ensures SlotMap(records, done + {s}) == SlotMap(records, done)[s := RecordAt(records, s)]
    ensures SequenceMap(records, done + {s}) == SequenceMap(records, done)[RecordAt(records, s).sequence := s]
  {
    hide SignatureOf, RecordAt, Slots, SlotOf;
  }

  /** `indexed_records` */
  method IndexedRecords(records: seq<Record>) returns (r: Result<Index>)
    requires DistinctSequences(records)
    ensures r.Ok? <==> AllReadable(records)
    ensures r.Ok? ==> r.value == IndexOf(records)
  {
    hide SignatureOf, Slots, IndexOf, SlotOf, SequenceMap, SlotMap, Filter;
    var buckets :- BucketBySignature(records);
    var remaining, ix := buckets.Keys, Index(map[], map[]);
    ghost var done: set<Slot> := {};
    NothingDone(records);
    while remaining != {}
      invariant remaining <= buckets.Keys
      invariant done == set s | s in Slots(records) && s.sig in buckets.Keys - remaining
      invariant ix == Index(SequenceMap(records, done), SlotMap(records, done))
      decreases remaining
    {
      var sig :| sig in remaining;
      assert SortBy(Key, buckets[sig]) == Bucket(records, sig);
      ix, done := EnterBucket(records, sig, SortBy(Key, buckets[sig]), ix, done);
      remaining := remaining - {sig};
    }
    forall s | s in Slots(records) ensures s.sig in buckets {
      SlotsAreRanks(records, s);
      BucketMembers(records, s.sig);
    }
    assert done == Slots(records);
    AllSlotsDone(records);
    return Ok(ix);
  }

  lemma NothingDone(records: seq<Record>)
    requires Indexable(records)
    ensures SequenceMap(records, {}) == map[] && SlotMap(records, {}) == map[]
  {
  }
}
