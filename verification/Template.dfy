/** Kernel templates: one entry per instruction of a class of CTAs, with a fitted rule for every base. */
module Template {
  import opened Common
  import opened Order
  import opened Lanes
  import opened SlotIndex
  import opened CoordinateRules
  import opened Cascade

  datatype Entry = Entry(
    ordinal: nat, pc: string, opcode: string, mask: string, pairs: seq<seq<string>>, rank: nat,
    rules: seq<Rule>, delta: int, deltaByCta: Option<map<int, int>>)

  // --------------------------------------------------------------- prediction

  /** Result of `predict_bases`. */
  function PredictBases(rules: seq<Rule>, block: int, dims: Dims): (r: Result<seq<int>>)
    ensures r.Ok? ==> |r.value| == |rules|
  {
    if rules == [] then Ok([])
    else
      var init :- PredictBases(rules[..|rules| - 1], block, dims);
      var last :- Predict(rules[|rules| - 1], block, dims);
      Ok(init + [last])
  }

  lemma {:induction false} PredictBasesFailsEarly(rules: seq<Rule>, block: int, dims: Dims, k: nat)
    requires k <= |rules| && PredictBases(rules[..k], block, dims).Err?
    ensures PredictBases(rules, block, dims) == PredictBases(rules[..k], block, dims)
    decreases |rules|
  {
    if k == |rules| {
      assert rules[..k] == rules;
    } else {
      assert rules[..|rules| - 1][..k] == rules[..k];
      PredictBasesFailsEarly(rules[..|rules| - 1], block, dims, k);
    }
  }

  /** `predict_bases` */
  method PredictEntryBases(rules: seq<Rule>, block: int, dims: Dims) returns (r: Result<seq<int>>)
    ensures r == PredictBases(rules, block, dims)
  {
    hide Predict;
    var result: seq<int> := [];
    for i := 0 to |rules|
      invariant PredictBases(rules[..i], block, dims) == Ok(result)
    {
      assert rules[..i + 1][..i] == rules[..i];
      var base := Predict(rules[i], block, dims);
      if base.Err? {
        PredictBasesFailsEarly(rules, block, dims, i + 1);
        return Err(base.error);
      }
      result := result + [base.value];
    }
    assert rules[..|rules|] == rules;
    return Ok(result);
  }

  lemma {:induction false} PredictBasesAre(rules: seq<Rule>, block: int, dims: Dims, bases: seq<int>)
    requires |bases| == |rules|
    ensures PredictBases(rules, block, dims) == Ok(bases)
       <==> forall i :: 0 <= i < |rules| ==> Predict(rules[i], block, dims) == Ok(bases[i])
  {
    hide Predict;
    if rules != [] {
      var n := |rules| - 1;
      PredictBasesAre(rules[..n], block, dims, bases[..n]);
      assert bases == bases[..n] + [bases[n]];
      assert forall i :: 0 <= i < n ==> rules[..n][i] == rules[i] && bases[..n][i] == bases[i];
      if PredictBases(rules, block, dims) == Ok(bases) {
        var init := PredictBases(rules[..n], block, dims).value;
        assert init == bases[..n];
      }
    }
  }

  function EntrySlot(e: Entry): Result<Slot> {
    var sig :- Signature(e.pc, e.opcode, e.mask, e.pairs);
    Ok(Slot(sig, e.rank))
  }

  /** The event an entry stands for at a given CTA. */
  function EntryEvent(e: Entry, block: int, dims: Dims): Result<Event> {
    var sig :- Signature(e.pc, e.opcode, e.mask, e.pairs);
    var bases :- PredictBases(e.rules, block, dims);
    Ok(Event(sig, bases))
  }

  function EventAt(block: int, dims: Dims): Entry -> Result<Event> {
    (e: Entry) => EntryEvent(e, block, dims)
  }

  // ----------------------------------------------------------------- building

  /** The collected CTAs together with their indexes. */
  ghost predicate PreparedAt(sampled: map<int, seq<Record>>, indexed: map<int, Index>, block: int) {
    block in sampled && block in indexed && Indexable(sampled[block]) && indexed[block] == IndexOf(sampled[block])
  }

  ghost predicate Prepared(sampled: map<int, seq<Record>>, indexed: map<int, Index>, ctas: seq<int>) {
    forall i :: 0 <= i < |ctas| ==> PreparedAt(sampled, indexed, ctas[i])
  }

  function SequenceKey(r: Record): seq<int> {
    [r.sequence]
  }

  function MinTime(records: seq<Record>): int
    requires records != []
  {
    if |records| == 1 then records[0].timestamp
    else
      var m := MinTime(records[1..]);
      if records[0].timestamp <= m then records[0].timestamp else m
  }

  lemma {:induction false} MinTimeIsLeast(records: seq<Record>, i: nat)
    requires i < |records|
    ensures MinTime(records) <= records[i].timestamp
  {
    if i > 0 {
      MinTimeIsLeast(records[1..], i - 1);
    }
  }

  /** `first` is the time of some record, and of none is there an earlier one. */
  ghost predicate IsFirstTime(records: seq<Record>, first: int) {
    && (exists i :: 0 <= i < |records| && records[i].timestamp == first)
    && forall i :: 0 <= i < |records| ==> first <= records[i].timestamp
  }

  lemma {:induction false} MinTimeOccurs(records: seq<Record>)
    requires records != []
    ensures exists i :: 0 <= i < |records| && records[i].timestamp == MinTime(records)
  {
    if |records| == 1 {
      assert records[0].timestamp == MinTime(records);
    } else {
      MinTimeOccurs(records[1..]);
      var i :| 0 <= i < |records| - 1 && records[1..][i].timestamp == MinTime(records[1..]);
      assert records[0].timestamp == MinTime(records) || records[i + 1].timestamp == MinTime(records);
    }
  }

  /** The least time is the first. */
  lemma MinTimeIsFirst(records: seq<Record>, first: int)
    requires records != []
    ensures IsFirstTime(records, first) <==> first == MinTime(records)
  {
    hide MinTime;
    MinTimeOccurs(records);
    forall i | 0 <= i < |records| ensures MinTime(records) <= records[i].timestamp {
      MinTimeIsLeast(records, i);
    }
  }

  /** Every CTA of the class has a record in the slot, and that record has the group. */
  predicate SlotEverywhere(indexed: map<int, Index>, ctas: seq<int>, slot: Slot, group: nat) {
    forall i :: 0 <= i < |ctas| ==>
      ctas[i] in indexed && slot in indexed[ctas[i]].bySlot && group < |indexed[ctas[i]].bySlot[slot].groups|
  }

  function Points(indexed: map<int, Index>, ctas: seq<int>, slot: Slot, group: nat): (p: seq<Point>)
    requires SlotEverywhere(indexed, ctas, slot, group)
    ensures |p| == |ctas|
    ensures forall i :: 0 <= i < |ctas| ==> p[i] == Point(ctas[i], indexed[ctas[i]].bySlot[slot].groups[group].base)
  {
    seq(|ctas|, i requires 0 <= i < |ctas| => Point(ctas[i], indexed[ctas[i]].bySlot[slot].groups[group].base))
  }

  datatype Options = Options(coordinates: bool, exactTable: bool)

  function FitBase(points: seq<Point>, dims: Dims, options: Options): Result<Rule> {
    if options.coordinates then FitProfileRule(points, dims, options.exactTable) else FitFlat(points)
  }

  /** The rules for the first `groups` address groups of one slot. */
  function SlotRules(indexed: map<int, Index>, ctas: seq<int>, slot: Slot, groups: nat, dims: Dims,
                     options: Options): (r: Result<seq<Rule>>)
    ensures r.Ok? ==> |r.value| == groups
  {
    if groups == 0 then Ok([])
    else
      var init :- SlotRules(indexed, ctas, slot, groups - 1, dims, options);
      if !SlotEverywhere(indexed, ctas, slot, groups - 1) then Err(MissingKey)
      else
        var rule :- FitBase(Points(indexed, ctas, slot, groups - 1), dims, options);
        Ok(init + [rule])
  }

  function Delta(sampled: map<int, seq<Record>>, indexed: map<int, Index>, block: int, slot: Slot): int
    requires block in sampled && sampled[block] != [] && block in indexed && slot in indexed[block].bySlot
  {
    indexed[block].bySlot[slot].timestamp - MinTime(sampled[block])
  }

  predicate AllNonEmpty(sampled: map<int, seq<Record>>, ctas: seq<int>) {
    forall i :: 0 <= i < |ctas| ==> ctas[i] in sampled && sampled[ctas[i]] != []
  }

  function DeltaTable(sampled: map<int, seq<Record>>, indexed: map<int, Index>, ctas: seq<int>, slot: Slot)
    : map<int, int>
    requires AllNonEmpty(sampled, ctas) && SlotEverywhereAtAll(indexed, ctas, slot)
  {
    map b | b in ctas :: Delta(sampled, indexed, b, slot)
  }

  predicate SlotEverywhereAtAll(indexed: map<int, Index>, ctas: seq<int>, slot: Slot) {
    forall b :: b in ctas ==> b in indexed && slot in indexed[b].bySlot
  }

  function BuildEntry(sampled: map<int, seq<Record>>, indexed: map<int, Index>, ctas: seq<int>, dims: Dims,
                      options: Options, ordinal: nat, r: Record): Result<Entry>
    requires ctas != [] && AllNonEmpty(sampled, ctas)
  {
    if ctas[0] !in indexed || r.sequence !in indexed[ctas[0]].bySequence then Err(MissingKey)
    else
      var slot := indexed[ctas[0]].bySequence[r.sequence];
      var rules :- SlotRules(indexed, ctas, slot, |r.groups|, dims, options);
      if options.exactTable && !SlotEverywhereAtAll(indexed, ctas, slot) then Err(MissingKey)
      else Ok(Entry(
        ordinal, r.pc, r.opcode, r.mask, PairsOf(r.groups), slot.rank, rules, r.timestamp - MinTime(sampled[ctas[0]]),
        if options.exactTable then Some(DeltaTable(sampled, indexed, ctas, slot)) else None))
  }

  function BuildEntries(sampled: map<int, seq<Record>>, indexed: map<int, Index>, ctas: seq<int>, dims: Dims,
                        options: Options, ordered: seq<Record>): (r: Result<seq<Entry>>)
    requires ctas != [] && AllNonEmpty(sampled, ctas)
    ensures r.Ok? ==> |r.value| == |ordered|
  {
    if ordered == [] then Ok([])
    else
      var n := |ordered| - 1;
      var init :- BuildEntries(sampled, indexed, ctas, dims, options, ordered[..n]);
      var last :- BuildEntry(sampled, indexed, ctas, dims, options, n, ordered[n]);
      Ok(init + [last])
  }

  /** Result of `build_template`: the first CTA of the class is the anchor. */
  function BuildTemplate(sampled: map<int, seq<Record>>, indexed: map<int, Index>, ctas: seq<int>, dims: Dims,
                         options: Options): Result<seq<Entry>>
    requires Prepared(sampled, indexed, ctas)
  {
    if ctas == [] then Err(BadClassTable)
    else if sampled[ctas[0]] == [] then
      if forall i :: 0 <= i < |ctas| ==> sampled[ctas[i]] == [] then Ok([]) else Err(HeterogeneousStructure)
    else if !AllNonEmpty(sampled, ctas) then Err(HeterogeneousStructure)
    else BuildEntries(sampled, indexed, ctas, dims, options, SortBy(SequenceKey, sampled[ctas[0]]))
  }

  // ------------------------------------------------------------ building loop

  lemma {:induction false} SlotRulesFailEarly(indexed: map<int, Index>, ctas: seq<int>, slot: Slot, k: nat, groups: nat,
                                              dims: Dims, options: Options)
    requires k <= groups && SlotRules(indexed, ctas, slot, k, dims, options).Err?
    ensures SlotRules(indexed, ctas, slot, groups, dims, options) == SlotRules(indexed, ctas, slot, k, dims, options)
    decreases groups
  {
    if k < groups {
      SlotRulesFailEarly(indexed, ctas, slot, k, groups - 1, dims, options);
    }
  }

  method FitSlot(indexed: map<int, Index>, ctas: seq<int>, slot: Slot, groups: nat, dims: Dims, options: Options)
    returns (r: Result<seq<Rule>>)
    ensures r == SlotRules(indexed, ctas, slot, groups, dims, options)
  {
    hide SlotEverywhere, FitBase;
    var rules: seq<Rule> := [];
    for g := 0 to groups
      invariant SlotRules(indexed, ctas, slot, g, dims, options) == Ok(rules)
    {
      if !SlotEverywhere(indexed, ctas, slot, g) {
        SlotRulesFailEarly(indexed, ctas, slot, g + 1, groups, dims, options);
        return Err(MissingKey);
      }
      var rule := FitBase(Points(indexed, ctas, slot, g), dims, options);
      if rule.Err? {
        SlotRulesFailEarly(indexed, ctas, slot, g + 1, groups, dims, options);
        return Err(rule.error);
      }
      rules := rules + [rule.value];
    }
    return Ok(rules);
  }

  lemma {:induction false} BuildEntriesFailEarly(sampled: map<int, seq<Record>>, indexed: map<int, Index>,
                                                 ctas: seq<int>, dims: Dims, options: Options, ordered: seq<Record>,
                                                 k: nat)
    requires ctas != [] && AllNonEmpty(sampled, ctas) && k <= |ordered|
    requires BuildEntries(sampled, indexed, ctas, dims, options, ordered[..k]).Err?
    ensures BuildEntries(sampled, indexed, ctas, dims, options, ordered)
         == BuildEntries(sampled, indexed, ctas, dims, options, ordered[..k])
    decreases |ordered|
  {
    hide BuildEntry;
    var n := |ordered| - 1;
    if k <= n {
      assert ordered[..n][..k] == ordered[..k];
      BuildEntriesFailEarly(sampled, indexed, ctas, dims, options, ordered[..n], k);
    } else {
      assert ordered[..k] == ordered;
    }
  }

  /** One turn of the loop of `build_template`: the entry of one record of the anchor. */
  method BuildClassEntry(sampled: map<int, seq<Record>>, indexed: map<int, Index>, ctas: seq<int>, dims: Dims,
                         options: Options, ordinal: nat, record: Record)
    returns (r: Result<Entry>)
    requires ctas != [] && AllNonEmpty(sampled, ctas)
    ensures r == BuildEntry(sampled, indexed, ctas, dims, options, ordinal, record)
  {
    hide SlotRules, SlotEverywhereAtAll, MinTime;
    var anchor := ctas[0];
    if anchor !in indexed || record.sequence !in indexed[anchor].bySequence {
      return Err(MissingKey);
    }
    var slot := indexed[anchor].bySequence[record.sequence];
    var rules :- FitSlot(indexed, ctas, slot, |record.groups|, dims, options);
    var table: Option<map<int, int>> := None;
    if options.exactTable {
      if !SlotEverywhereAtAll(indexed, ctas, slot) {
        return Err(MissingKey);
      }
      table := Some(DeltaTable(sampled, indexed, ctas, slot));
    }
    return Ok(Entry(ordinal, record.pc, record.opcode, record.mask, PairsOf(record.groups), slot.rank, rules,
                    record.timestamp - MinTime(sampled[anchor]), table));
  }

  /** `build_template` */
  method BuildClassTemplate(sampled: map<int, seq<Record>>, indexed: map<int, Index>, ctas: seq<int>, dims: Dims,
                            options: Options)
    returns (r: Result<seq<Entry>>)
    requires Prepared(sampled, indexed, ctas)
    ensures r == BuildTemplate(sampled, indexed, ctas, dims, options)
  {
    hide BuildEntry, IndexOf, SortBy;
    if ctas == [] {
      return Err(BadClassTable);
    }
    var anchor := ctas[0];
    if sampled[anchor] == [] {
      if exists i :: 0 <= i < |ctas| && sampled[ctas[i]] != [] {
        return Err(HeterogeneousStructure);
      }
      return Ok([]);
    }
    if !AllNonEmpty(sampled, ctas) {
      return Err(HeterogeneousStructure);
    }
    var ordered := SortBy(SequenceKey, sampled[anchor]);
    var template: seq<Entry> := [];
    for ordinal := 0 to |ordered|
      invariant BuildEntries(sampled, indexed, ctas, dims, options, ordered[..ordinal]) == Ok(template)
    {
      var record := ordered[ordinal];
      assert ordered[..ordinal + 1][..ordinal] == ordered[..ordinal];
      var entry := BuildClassEntry(sampled, indexed, ctas, dims, options, ordinal, record);
      if entry.Err? {
        BuildEntriesFailEarly(sampled, indexed, ctas, dims, options, ordered, ordinal + 1);
        return Err(entry.error);
      }
      template := template + [entry.value];
    }
    assert ordered[..|ordered|] == ordered;
    return Ok(template);
  }
}
