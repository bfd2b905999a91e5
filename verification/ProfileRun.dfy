/** The loops of `profile`, and when a complete grid can be profiled. */
module ProfileRun {
  import opened Common
  import opened Sequences
  import opened Order
  import opened Lanes
  import opened SlotIndex
  import opened CoordinateRules
  import opened Cascade
  import opened Template
  import opened Meaning
  import opened Holdout
  import opened Classes
  import opened Profile

  // ------------------------------------------- complete grids always succeed

  lemma {:induction false} SlotRulesSucceed(indexed: map<int, Index>, ctas: seq<int>, slot: Slot, groups: nat,
                                            dims: Dims)
    requires forall i :: 0 <= i < |ctas| ==>
               ctas[i] in indexed && slot in indexed[ctas[i]].bySlot && |indexed[ctas[i]].bySlot[slot].groups| >= groups
    ensures SlotRules(indexed, ctas, slot, groups, dims, EXACT).Ok?
  {
    hide FitProfileRule;
    if groups > 0 {
      SlotRulesSucceed(indexed, ctas, slot, groups - 1, dims);
      ExactAlwaysFits(Points(indexed, ctas, slot, groups - 1), dims);
    }
  }

  lemma ExactAlwaysFits(points: seq<Point>, dims: Dims)
    ensures FitBase(points, dims, EXACT).Ok?
  {
    hide FitCoordinateRule;
  }

  lemma SlotAtEach(sampled: map<int, seq<Record>>, indexed: map<int, Index>, ctas: seq<int>, r: Record, i: nat)
    requires Prepared(sampled, indexed, ctas) && SameStructure(sampled, ctas) && i < |ctas|
    requires PreparedAt(sampled, indexed, ctas[0]) && r in sampled[ctas[0]]
    ensures Readable(r) && r.sequence in indexed[ctas[0]].bySequence
    ensures indexed[ctas[0]].bySequence[r.sequence] == SlotOf(sampled[ctas[0]], r)
    ensures ctas[i] in indexed && SlotOf(sampled[ctas[0]], r) in indexed[ctas[i]].bySlot
    ensures |indexed[ctas[i]].bySlot[SlotOf(sampled[ctas[0]], r)].groups| == |r.groups|
  {
    hide Slots, RecordAt, Rank, Signature;
    var s := SlotDetermined(sampled[ctas[0]], r);
    RecordAtSignature(sampled[ctas[0]], s);
    RecordAtSignature(sampled[ctas[i]], s);
  }

  lemma SlotDetermined(records: seq<Record>, r: Record) returns (s: Slot)
    requires Indexable(records) && r in records
    ensures Readable(r) && s == SlotOf(records, r) && s in Slots(records) && RecordAt(records, s) == r
  {
    SlotDeterminesRecord(records, r);
    s := SlotOf(records, r);
  }

  lemma EntrySucceeds(sampled: map<int, seq<Record>>, indexed: map<int, Index>, ctas: seq<int>, dims: Dims,
                      ordinal: nat, r: Record)
    requires ctas != [] && Prepared(sampled, indexed, ctas) && AllNonEmpty(sampled, ctas)
    requires SameStructure(sampled, ctas) && PreparedAt(sampled, indexed, ctas[0]) && r in sampled[ctas[0]]
    ensures BuildEntry(sampled, indexed, ctas, dims, EXACT, ordinal, r).Ok?
  {
    hide SlotRules, PreparedAt, SlotOf, Readable, Slots;
    forall i | 0 <= i < |ctas|
      ensures Readable(r)
      ensures ctas[i] in indexed && SlotOf(sampled[ctas[0]], r) in indexed[ctas[i]].bySlot
      ensures |indexed[ctas[i]].bySlot[SlotOf(sampled[ctas[0]], r)].groups| == |r.groups|
    {
      SlotAtEach(sampled, indexed, ctas, r, i);
    }
    SlotAtEach(sampled, indexed, ctas, r, 0);
    SlotRulesSucceed(indexed, ctas, SlotOf(sampled[ctas[0]], r), |r.groups|, dims);
  }

  lemma {:induction false} EntriesSucceed(sampled: map<int, seq<Record>>, indexed: map<int, Index>, ctas: seq<int>,
                                          dims: Dims, ordered: seq<Record>)
    requires ctas != [] && Prepared(sampled, indexed, ctas) && AllNonEmpty(sampled, ctas)
    requires SameStructure(sampled, ctas) && PreparedAt(sampled, indexed, ctas[0])
    requires forall i :: 0 <= i < |ordered| ==> ordered[i] in sampled[ctas[0]]
    ensures BuildEntries(sampled, indexed, ctas, dims, EXACT, ordered).Ok?
    decreases |ordered|
  {
    hide BuildEntry, PreparedAt, SameStructure, Prepared, AllNonEmpty;
    if ordered != [] {
      assert ctas[0] in sampled by { InSampled(sampled, indexed, ctas); }
      EntriesSucceed(sampled, indexed, ctas, dims, ordered[..|ordered| - 1]);
      EntrySucceeds(sampled, indexed, ctas, dims, |ordered| - 1, ordered[|ordered| - 1]);
    }
  }

  lemma InSampled(sampled: map<int, seq<Record>>, indexed: map<int, Index>, ctas: seq<int>)
    requires ctas != [] && PreparedAt(sampled, indexed, ctas[0])
    ensures ctas[0] in sampled
  {
  }

  lemma NoSlotsIffEmpty(records: seq<Record>)
    requires Indexable(records)
    ensures Slots(records) == {} <==> records == []
  {
    hide SlotOf;
    if records != [] {
      assert Readable(records[0]) && records[0] in records;
      assert SlotOf(records, records[0]) in Slots(records);
    }
  }

  /** CTAs of one structure can always be given a template with exact tables. */
  lemma BuildSucceeds(sampled: map<int, seq<Record>>, indexed: map<int, Index>, ctas: seq<int>, dims: Dims)
    requires ctas != [] && Prepared(sampled, indexed, ctas) && SameStructure(sampled, ctas)
    ensures BuildTemplate(sampled, indexed, ctas, dims, EXACT).Ok?
  {
    hide Slots, BuildEntries, SortBy, Indexable, IndexOf;
    assert PreparedAt(sampled, indexed, ctas[0]);
    forall i | 0 <= i < |ctas| ensures ctas[i] in sampled && (sampled[ctas[i]] == [] <==> sampled[ctas[0]] == []) {
      assert PreparedAt(sampled, indexed, ctas[i]);
      NoSlotsIffEmpty(sampled[ctas[i]]);
      NoSlotsIffEmpty(sampled[ctas[0]]);
    }
    if sampled[ctas[0]] != [] {
      OrderedAnchor(sampled[ctas[0]]);
      EntriesSucceed(sampled, indexed, ctas, dims, SortBy(SequenceKey, sampled[ctas[0]]));
    }
  }

  lemma {:induction false} ClassListSucceeds(sampled: map<int, seq<Record>>, indexed: map<int, Index>, g: seq<seq<int>>,
                                             dims: Dims)
    requires forall i :: 0 <= i < |g| ==> Prepared(sampled, indexed, g[i]) && g[i] != [] && SameStructure(sampled, g[i])
    ensures ClassList(sampled, indexed, g, dims).Ok?
    decreases |g|
  {
    hide BuildTemplate, Prepared, SameStructure;
    if g != [] {
      ClassListSucceeds(sampled, indexed, g[..|g| - 1], dims);
      BuildSucceeds(sampled, indexed, g[|g| - 1], dims);
    }
  }

  lemma GroupsSameStructure(sampled: map<int, seq<Record>>, s: Setup, i: nat)
    requires SelectionOk(s) && s.complete && IndexableAt(sampled, Selected(s))
    requires i < |Groups(Structures(sampled, Selected(s)))|
    ensures Groups(Structures(sampled, Selected(s)))[i] != []
    ensures SameStructure(sampled, Groups(Structures(sampled, Selected(s)))[i])
  {
    hide Slots, Indexable, Groups, IsClass;
    var keys := Structures(sampled, Selected(s));
    assert Selected(s) == Range(s.n);
    GroupsPartition(keys);
    var c := Groups(keys)[i];
    ClassAt(keys, Groups(keys), i);
    ClassInRange(keys, c);
    ClassNonEmpty(keys, c);
    forall j | 0 <= j < |c|
      ensures c[j] in sampled && Indexable(sampled[c[j]]) && Slots(sampled[c[j]]) == keys[c[j]]
    {
      assert Selected(s)[c[j]] == c[j];
    }
  }

  lemma ClassNonEmpty<K(!new)>(keys: seq<K>, c: seq<int>)
    requires IsClass(keys, c)
    ensures c != []
  {
  }

  /** A complete grid whose records can be read is always profiled: exact tables catch what no rule fits. */
  lemma CompleteProfileSucceeds(sampled: map<int, seq<Record>>, s: Setup)
    requires WellSampled(sampled, Selected(s)) && SelectionOk(s) && s.complete && s.uniformTables
    ensures ProfileOf(sampled, s).Ok? <==> ReadableAt(sampled, Selected(s))
  {
    hide BuildTemplate, ClassList, Groups, Slots, Prepared, SameStructure, Indexable, GatePasses, Indexes,
      Homogeneous;
    if ReadableAt(sampled, Selected(s)) {
      IndexableFrom(sampled, Selected(s));
      var indexed, keys := Indexes(sampled, Selected(s)), Structures(sampled, Selected(s));
      if Homogeneous(keys) {
        TrainPrepared(sampled, s);
        SameStructureFrom(sampled, s);
        BuildSucceeds(sampled, indexed, s.train, s.dims);
      } else {
        ClassesPrepared(sampled, s);
        forall i | 0 <= i < |Groups(keys)| ensures Groups(keys)[i] != [] && SameStructure(sampled, Groups(keys)[i]) {
          GroupsSameStructure(sampled, s, i);
        }
        ClassListSucceeds(sampled, indexed, Groups(keys), s.dims);
      }
    }
  }

  /**
   * Exactly when revision r10 profiles a complete grid: the CTAs trained on are 0, 1, ..., n-1, none is held
   * out, the capture is in MEMCv3 form, the grid's dimensions multiply to n, and all records can be read.
   */
  lemma CompleteProfileExactlyWhen(sampled: map<int, seq<Record>>, s: Setup)
    requires WellSampled(sampled, Selected(s)) && s.complete && s.uniformTables
    ensures ProfileOf(sampled, s).Ok?
       <==> && s.holdout == [] && s.memc && s.n > 0 && s.dims.x * s.dims.y * s.dims.z == s.n
            && |s.train| == s.n && (forall i :: 0 <= i < s.n ==> s.train[i] == i)
            && (forall b :: 0 <= b < s.n ==> b in sampled && AllReadable(sampled[b]))
  {
    hide ProfileOf, AllReadable, WellSampled, SelectionOk, Selected;
    CompleteSelectionIs(s);
    if SelectionOk(s) {
      CompleteProfileSucceeds(sampled, s);
      ReadableGrid(sampled, s.n);
    } else {
      BadSelectionFails(sampled, s);
    }
  }

  /** The selection of a complete profile: the CTAs 0, 1, ..., n-1 of a MEMCv3 capture of a grid of n. */
  lemma CompleteSelectionIs(s: Setup)
    requires s.complete
    ensures SelectionOk(s)
       <==> && s.holdout == [] && s.memc && s.n > 0 && s.dims.x * s.dims.y * s.dims.z == s.n
            && |s.train| == s.n && (forall i :: 0 <= i < s.n ==> s.train[i] == i)
    ensures SelectionOk(s) ==> Selected(s) == Range(s.n)
  {
    if |s.train| == s.n && forall i :: 0 <= i < s.n ==> s.train[i] == i {
      assert s.train == Range(s.n);
    }
    if s.holdout == [] {
      assert Selected(s) == s.train;
    }
  }

  lemma ReadableGrid(sampled: map<int, seq<Record>>, n: nat)
    ensures ReadableAt(sampled, Range(n)) <==> forall b :: 0 <= b < n ==> b in sampled && AllReadable(sampled[b])
  {
    hide AllReadable;
    if ReadableAt(sampled, Range(n)) {
      forall b | 0 <= b < n ensures b in sampled && AllReadable(sampled[b]) {
        assert Range(n)[b] == b;
      }
    }
  }

  lemma BadSelectionFails(sampled: map<int, seq<Record>>, s: Setup)
    requires WellSampled(sampled, Selected(s)) && !SelectionOk(s)
    ensures ProfileOf(sampled, s).Err?
  {
    hide BuildTemplate, ClassList, Groups, Slots, Prepared, Indexable, GatePasses, Indexes, Homogeneous;
  }

  /** The selections of a sampled profile: nonempty, ascending, disjoint lists of CTAs of the grid. */
  lemma SampledSelectionIs(s: Setup)
    requires !s.complete
    ensures SelectionOk(s)
       <==> && s.train != [] && s.holdout != [] && s.dims.x * s.dims.y * s.dims.z == s.n
            && (forall i, j :: 0 <= i < j < |s.train| ==> s.train[i] < s.train[j])
            && (forall i, j :: 0 <= i < j < |s.holdout| ==> s.holdout[i] < s.holdout[j])
            && (forall b :: b in s.train ==> 0 <= b < s.n && b !in s.holdout)
            && (forall b :: b in s.holdout ==> 0 <= b < s.n)
  {
    forall i | 0 <= i < |s.train| ensures s.train[i] in s.train && Selected(s)[i] == s.train[i] {
    }
    forall j | 0 <= j < |s.holdout|
      ensures s.holdout[j] in s.holdout && Selected(s)[|s.train| + j] == s.holdout[j]
    {
    }
  }

  // ---------------------------------------------------------------- the loops

  /** The places of all CTAs in the classes before `i`, and in class `i` of its first `k` members, are filled in. */
  ghost predicate FilledIn(classById: seq<string>, g: seq<seq<int>>, i: nat, k: nat)
    requires i <= |g| && (if i < |g| then k <= |g[i]| else k == 0)
  {
    forall b :: 0 <= b < |classById| ==>
      var c := First(HasMember(b), g);
      classById[b] == if 0 <= c < i || (c == i && b in g[i][..k]) then ClassId(c) else ""
  }

  /** The next member's place is still empty, which is what the source tests, and is filled in next. */
  lemma FillNext<K(!new)>(keys: seq<K>, g: seq<seq<int>>, classById: seq<string>, i: nat, k: nat)
    requires |keys| == |classById| && Partition(keys, g) && i < |g| && k < |g[i]| && FilledIn(classById, g, i, k)
    ensures 0 <= g[i][k] < |classById| && classById[g[i][k]] == ""
    ensures FilledIn(classById[g[i][k] := ClassId(i)], g, i, k + 1)
  {
    hide ClassId, IsClass, Partition;
    ClassAt(keys, g, i);
    ClassInRange(keys, g[i]);
    GroupOfMember(keys, g, g[i][k], i);
    assert g[i][..k + 1] == g[i][..k] + [g[i][k]];
    assert g[i][k] !in g[i][..k];
  }

  lemma FillClass<K(!new)>(keys: seq<K>, g: seq<seq<int>>, classById: seq<string>, i: nat)
    requires |keys| == |classById| && Partition(keys, g) && i < |g| && FilledIn(classById, g, i, |g[i]|)
    ensures FilledIn(classById, g, i + 1, 0)
  {
    hide ClassId, IsClass, Partition;
    assert g[i][..|g[i]|] == g[i];
    forall b | 0 <= b < |classById| && First(HasMember(b), g) == i ensures b in g[i] {
      assert HasMember(b)(g[i]);
    }
  }

  /** Writes the class name of every CTA into its place. */
  method FillClassMap<K(!new)>(ghost keys: seq<K>, g: seq<seq<int>>, n: nat) returns (m: seq<string>)
    requires |keys| == n && Partition(keys, g)
    ensures m == ClassMap(g, n)
  {
    hide ClassId, IsClass, Partition, FilledIn;
    var classById := new string[n](_ => "");
    NothingFilledIn(classById[..], g);
    for i := 0 to |g|
      invariant FilledIn(classById[..], g, i, 0)
    {
      for k := 0 to |g[i]|
        invariant FilledIn(classById[..], g, i, k)
      {
        FillNext(keys, g, classById[..], i, k);
        assert classById[g[i][k]] == "";
        classById[g[i][k]] := ClassId(i);
      }
      FillClass(keys, g, classById[..], i);
    }
    AllFilledIn(classById[..], g);
    m := classById[..];
  }

  lemma NothingFilledIn(classById: seq<string>, g: seq<seq<int>>)
    requires forall b :: 0 <= b < |classById| ==> classById[b] == ""
    ensures FilledIn(classById, g, 0, 0)
  {
    hide ClassId;
  }

  lemma AllFilledIn(classById: seq<string>, g: seq<seq<int>>)
    requires FilledIn(classById, g, |g|, 0)
    ensures classById == ClassMap(g, |classById|)
  {
    hide ClassId;
  }

  method IndexAll(sampled: map<int, seq<Record>>, ctas: seq<int>) returns (r: Result<map<int, Index>>)
    requires WellSampled(sampled, ctas)
    ensures r.Ok? <==> ReadableAt(sampled, ctas)
    ensures r.Ok? ==> IndexableAt(sampled, ctas) && r.value == Indexes(sampled, ctas)
  {
    hide AllReadable, IndexOf, DistinctSequences;
    var indexed: map<int, Index> := map[];
    for i := 0 to |ctas|
      invariant forall k :: 0 <= k < i ==>
                  ctas[k] in sampled && AllReadable(sampled[ctas[k]]) && Indexable(sampled[ctas[k]])
      invariant indexed.Keys == SetOf(ctas[..i])
      invariant forall k :: 0 <= k < i ==> indexed[ctas[k]] == IndexOf(sampled[ctas[k]])
    {
      assert WellSampledAt(sampled, ctas[i]);
      var one :- IndexedRecords(sampled[ctas[i]]);
      assert ctas[..i + 1] == ctas[..i] + [ctas[i]];
      indexed := indexed[ctas[i] := one];
    }
    assert ctas[..|ctas|] == ctas;
    assert indexed == Indexes(sampled, ctas);
    return Ok(indexed);
  }

  lemma KeysOfIndex(records: seq<Record>)
    requires Indexable(records)
    ensures IndexOf(records).bySlot.Keys == Slots(records)
  {
    hide Slots, RecordAt, SlotOf;
  }

  lemma {:induction false} ClassListFailsEarly(sampled: map<int, seq<Record>>, indexed: map<int, Index>,
                                               g: seq<seq<int>>, dims: Dims, k: nat)
    requires forall i :: 0 <= i < |g| ==> Prepared(sampled, indexed, g[i])
    requires k <= |g| && ClassList(sampled, indexed, g[..k], dims).Err?
    ensures ClassList(sampled, indexed, g, dims).Err?
    decreases |g|
  {
    hide BuildTemplate, Prepared;
    if k < |g| {
      assert g[..|g| - 1][..k] == g[..k];
      ClassListFailsEarly(sampled, indexed, g[..|g| - 1], dims, k);
    } else {
      assert g[..k] == g;
    }
  }

  method BuildClasses(sampled: map<int, seq<Record>>, indexed: map<int, Index>, g: seq<seq<int>>, dims: Dims)
    returns (r: Result<seq<StructuralClass>>)
    requires forall i :: 0 <= i < |g| ==> Prepared(sampled, indexed, g[i])
    ensures r.Ok? <==> ClassList(sampled, indexed, g, dims).Ok?
    ensures r.Ok? ==> r == ClassList(sampled, indexed, g, dims)
  {
    hide BuildTemplate, Prepared, ClassId;
    var classes: seq<StructuralClass> := [];
    for i := 0 to |g|
      invariant ClassList(sampled, indexed, g[..i], dims) == Ok(classes)
    {
      assert g[..i + 1][..i] == g[..i];
      var template := BuildClassTemplate(sampled, indexed, g[i], dims, EXACT);
      if template.Err? {
        ClassListFailsEarly(sampled, indexed, g, dims, i + 1);
        return Err(template.error);
      }
      classes := classes + [StructuralClass(ClassId(i), g[i], template.value)];
    }
    assert g[..|g|] == g;
    return Ok(classes);
  }

  /** `profile`, from the collected CTAs on. */
  method RunProfile(sampled: map<int, seq<Record>>, s: Setup) returns (r: Result<Profile>)
    requires WellSampled(sampled, Selected(s))
    ensures r.Ok? <==> ProfileOf(sampled, s).Ok?
    ensures r.Ok? ==> r == ProfileOf(sampled, s)
  {
    hide BuildTemplate, ClassList, Groups, Slots, Prepared, Indexable, GatePasses, Indexes, Shaped, ClassMap,
      Partition;
    if !SelectionOk(s) {
      return Err(BadSelection);
    }
    var selected := Selected(s);
    var indexed :- IndexAll(sampled, selected);
    forall i | 0 <= i < |selected|
      ensures selected[i] in indexed && indexed[selected[i]].bySlot.Keys == Slots(sampled[selected[i]])
    {
      IndexKey(sampled, selected, indexed, i);
    }
    var keys := seq(|selected|, i requires 0 <= i < |selected| => indexed[selected[i]].bySlot.Keys);
    assert keys == Structures(sampled, selected);
    var g := GroupByStructure(keys);
    OneClassIffUniform(keys);
    TrainPrepared(sampled, s);
    if |g| > 1 {
      if !s.complete {
        return Err(HeterogeneousStructure);
      }
      ClassesPrepared(sampled, s);
      var classes :- BuildClasses(sampled, indexed, g, s.dims);
      GroupsPartition(keys);
      assert |keys| == s.n;
      var classById := FillClassMap(keys, g, s.n);
      return Ok(Structural(classes, classById));
    }
    var options := Options(s.memc, s.complete && s.uniformTables);
    var template :- BuildClassTemplate(sampled, indexed, s.train, s.dims, options);
    if !s.complete {
      TemplateShaped(sampled, s, template);
      var gate := CheckHoldout(sampled, indexed, template, s.holdout, s.dims);
      if gate.Fail? {
        return Err(gate.error);
      }
    }
    return Ok(Uniform(template));
  }

  lemma IndexKey(sampled: map<int, seq<Record>>, ctas: seq<int>, indexed: map<int, Index>, i: nat)
    requires IndexableAt(sampled, ctas) && indexed == Indexes(sampled, ctas) && i < |ctas|
    ensures ctas[i] in indexed && indexed[ctas[i]].bySlot.Keys == Slots(sampled[ctas[i]])
  {
    KeysOfIndex(sampled[ctas[i]]);
  }
}
