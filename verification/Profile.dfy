/** `profile`: from the collected CTAs to a compact kernel profile. */
module Profile {
  import opened Common
  import opened Sequences
  import opened Order
  import opened Lanes
  import opened SlotIndex
  import opened CoordinateRules
  import opened Template
  import opened Meaning
  import opened Holdout
  import opened Classes

  datatype Profile =
    | Uniform(template: seq<Entry>)
    | Structural(classes: seq<StructuralClass>, classById: seq<string>)

  /**
   * What the caller fixes: the CTAs, whether they are the complete grid, the capture format, and
   * whether a uniform complete grid keeps per-CTA tables (revision r10) or not (revision r9).
   */
  datatype Setup = Setup(
    train: seq<int>, holdout: seq<int>, complete: bool, memc: bool, uniformTables: bool, dims: Dims, n: nat)

  function Selected(s: Setup): seq<int> {
    s.train + s.holdout
  }

  predicate AscendingIds(ids: seq<int>) {
    (forall i :: 0 <= i < |ids| ==> ids[i] >= 0) && forall i, j :: 0 <= i < j < |ids| ==> ids[i] < ids[j]
  }

  /** The selection rules at the head of `profile`; the CTA lists arrive parsed, sorted and unique. */
  predicate SelectionOk(s: Setup) {
    && s.train != [] && AscendingIds(s.train) && AscendingIds(s.holdout)
    && (s.complete <==> s.holdout == [])
    && (forall i, j :: 0 <= i < |s.train| && 0 <= j < |s.holdout| ==> s.train[i] != s.holdout[j])
    && CtaCount(s.dims) == s.n
    && (forall i :: 0 <= i < |Selected(s)| ==> Selected(s)[i] < s.n)
    && (s.complete ==> s.memc && s.train == Range(s.n))
  }

  /** What the collecting scan guarantees of each selected CTA's list. */
  predicate WellSampledAt(sampled: map<int, seq<Record>>, b: int) {
    b in sampled && DistinctSequences(sampled[b]) && forall i :: 0 <= i < |sampled[b]| ==> sampled[b][i].groups != []
  }

  predicate WellSampled(sampled: map<int, seq<Record>>, ctas: seq<int>) {
    forall i :: 0 <= i < |ctas| ==> WellSampledAt(sampled, ctas[i])
  }

  predicate ReadableAt(sampled: map<int, seq<Record>>, ctas: seq<int>) {
    forall i :: 0 <= i < |ctas| ==> ctas[i] in sampled && AllReadable(sampled[ctas[i]])
  }

  predicate IndexableAt(sampled: map<int, seq<Record>>, ctas: seq<int>) {
    forall i :: 0 <= i < |ctas| ==> ctas[i] in sampled && Indexable(sampled[ctas[i]])
  }

  lemma IndexableFrom(sampled: map<int, seq<Record>>, ctas: seq<int>)
    requires WellSampled(sampled, ctas) && ReadableAt(sampled, ctas)
    ensures IndexableAt(sampled, ctas)
  {
    hide AllReadable, DistinctSequences;
    forall i | 0 <= i < |ctas| ensures ctas[i] in sampled && Indexable(sampled[ctas[i]]) {
      assert WellSampledAt(sampled, ctas[i]);
    }
  }

  /** The index of every selected CTA. */
  ghost function Indexes(sampled: map<int, seq<Record>>, ctas: seq<int>): map<int, Index>
    requires IndexableAt(sampled, ctas)
  {
    map b | b in ctas :: IndexOf(sampled[b])
  }

  /** The slot set of every selected CTA. */
  ghost function Structures(sampled: map<int, seq<Record>>, ctas: seq<int>): (keys: seq<set<Slot>>)
    requires IndexableAt(sampled, ctas)
    ensures |keys| == |ctas| && forall i :: 0 <= i < |ctas| ==> keys[i] == Slots(sampled[ctas[i]])
  {
    hide Slots;
    seq(|ctas|, i requires 0 <= i < |ctas| => Slots(sampled[ctas[i]]))
  }

  ghost predicate Homogeneous(keys: seq<set<Slot>>) {
    forall i :: 0 <= i < |keys| ==> keys[i] == keys[0]
  }

  lemma PreparedFrom(sampled: map<int, seq<Record>>, all: seq<int>, ctas: seq<int>)
    requires IndexableAt(sampled, all) && forall i :: 0 <= i < |ctas| ==> ctas[i] in all
    ensures Prepared(sampled, Indexes(sampled, all), ctas)
  {
    hide Indexable, IndexOf;
  }

  // -------------------------------------------------------- structural classes

  const EXACT := Options(true, true)

  ghost function ClassList(sampled: map<int, seq<Record>>, indexed: map<int, Index>, g: seq<seq<int>>, dims: Dims):
    (r: Result<seq<StructuralClass>>)
    requires forall i :: 0 <= i < |g| ==> Prepared(sampled, indexed, g[i])
    ensures r.Ok? ==> |r.value| == |g|
  {
    if g == [] then Ok([])
    else
      var n := |g| - 1;
      var init :- ClassList(sampled, indexed, g[..n], dims);
      var last :- BuildTemplate(sampled, indexed, g[n], dims, EXACT);
      Ok(init + [StructuralClass(ClassId(n), g[n], last)])
  }

  /** Class i has name i, the members of group i, and the template built from them. */
  lemma {:induction false} ClassListIs(sampled: map<int, seq<Record>>, indexed: map<int, Index>, g: seq<seq<int>>,
                                       dims: Dims, i: nat)
    requires forall i :: 0 <= i < |g| ==> Prepared(sampled, indexed, g[i])
    requires ClassList(sampled, indexed, g, dims).Ok? && i < |g|
    ensures ClassList(sampled, indexed, g, dims).value[i].id == ClassId(i)
    ensures ClassList(sampled, indexed, g, dims).value[i].ctas == g[i]
    ensures BuildTemplate(sampled, indexed, g[i], dims, EXACT)
            == Ok(ClassList(sampled, indexed, g, dims).value[i].template)
    decreases |g|
  {
    hide BuildTemplate, Prepared, ClassId;
    var n := |g| - 1;
    if i < n {
      assert g[..n][i] == g[i];
      ClassListIs(sampled, indexed, g[..n], dims, i);
    }
  }

  function HasMember(b: int): seq<int> -> bool {
    (c: seq<int>) => b in c
  }

  /** `cta_class_by_id`: the name of the class that holds each CTA. */
  function ClassMap(g: seq<seq<int>>, n: nat): (m: seq<string>)
    ensures |m| == n
  {
    seq(n, b => var c := First(HasMember(b), g); if c == -1 then "" else ClassId(c))
  }

  // ------------------------------------------------------------------ profile

  /** `profile`, from the collected CTAs on. */
  ghost function ProfileOf(sampled: map<int, seq<Record>>, s: Setup): Result<Profile>
    requires WellSampled(sampled, Selected(s))
  {
    if !SelectionOk(s) then Err(BadSelection)
    else if !ReadableAt(sampled, Selected(s)) then Err(BadNumber)
    else
      IndexableFrom(sampled, Selected(s));
      var indexed := Indexes(sampled, Selected(s));
      var keys := Structures(sampled, Selected(s));
      if !Homogeneous(keys) then
        if !s.complete then Err(HeterogeneousStructure)
        else
          ClassesPrepared(sampled, s);
          var classes :- ClassList(sampled, indexed, Groups(keys), s.dims);
          Ok(Structural(classes, ClassMap(Groups(keys), s.n)))
      else
        TrainPrepared(sampled, s);
        var options := Options(s.memc, s.complete && s.uniformTables);
        var template :- BuildTemplate(sampled, indexed, s.train, s.dims, options);
        if s.complete then Ok(Uniform(template))
        else
          TemplateShaped(sampled, s, template);
          if GatePasses(indexed, template, s.holdout, s.dims) then Ok(Uniform(template)) else Err(HoldoutMismatch)
  }

  lemma TrainPrepared(sampled: map<int, seq<Record>>, s: Setup)
    requires IndexableAt(sampled, Selected(s))
    ensures Prepared(sampled, Indexes(sampled, Selected(s)), s.train)
    ensures Prepared(sampled, Indexes(sampled, Selected(s)), s.holdout)
  {
    hide Prepared, Indexable;
    forall i | 0 <= i < |s.train| ensures s.train[i] in Selected(s) {
      assert Selected(s)[i] == s.train[i];
    }
    forall i | 0 <= i < |s.holdout| ensures s.holdout[i] in Selected(s) {
      assert Selected(s)[|s.train| + i] == s.holdout[i];
    }
    PreparedFrom(sampled, Selected(s), s.train);
    PreparedFrom(sampled, Selected(s), s.holdout);
  }

  lemma ClassesPrepared(sampled: map<int, seq<Record>>, s: Setup)
    requires SelectionOk(s) && s.complete && IndexableAt(sampled, Selected(s))
    ensures Selected(s) == Range(s.n)
    ensures var g := Groups(Structures(sampled, Selected(s)));
      forall i :: 0 <= i < |g| ==> Prepared(sampled, Indexes(sampled, Selected(s)), g[i])
  {
    hide Prepared, Indexable, Groups;
    var keys := Structures(sampled, Selected(s));
    assert Selected(s) == Range(s.n);
    GroupsPartition(keys);
    var g := Groups(keys);
    forall i | 0 <= i < |g| ensures Prepared(sampled, Indexes(sampled, Selected(s)), g[i]) {
      ClassInRange(keys, g[i]);
      forall j | 0 <= j < |g[i]| ensures g[i][j] in Selected(s) {
        assert Selected(s)[g[i][j]] == g[i][j];
      }
      PreparedFrom(sampled, Selected(s), g[i]);
    }
  }

  lemma ClassInRange<K(!new)>(keys: seq<K>, c: seq<int>)
    requires IsClass(keys, c)
    ensures 0 <= c[0] < |keys| && forall j :: 0 <= j < |c| ==> 0 <= c[j] < |keys| && keys[c[j]] == keys[c[0]]
    ensures Distinct(c)
  {
    assert c[0] in c;
    forall j | 0 <= j < |c| ensures 0 <= c[j] < |keys| && keys[c[j]] == keys[c[0]] {
      assert c[j] in c;
    }
  }

  /** Entries of a built template have one rule per address group and a readable structure. */
  lemma TemplateShaped(sampled: map<int, seq<Record>>, s: Setup, template: seq<Entry>)
    requires WellSampled(sampled, Selected(s)) && IndexableAt(sampled, Selected(s)) && s.train != []
    requires Prepared(sampled, Indexes(sampled, Selected(s)), s.train)
    requires BuildTemplate(sampled, Indexes(sampled, Selected(s)), s.train, s.dims,
               Options(s.memc, s.complete && s.uniformTables)) == Ok(template)
    ensures forall i :: 0 <= i < |template| ==> Shaped(template[i])
  {
    var indexed, options := Indexes(sampled, Selected(s)), Options(s.memc, s.complete && s.uniformTables);
    hide Indexes, IndexOf, BuildEntry, BuildEntries, SortBy, Signature, Readable, DistinctSequences, AllReadable,
      SlotRules;
    var anchor := sampled[s.train[0]];
    assert Selected(s)[0] == s.train[0] && WellSampledAt(sampled, s.train[0]);
    if anchor != [] {
      var ordered := SortBy(SequenceKey, anchor);
      OrderedAnchor(anchor);
      forall i | 0 <= i < |template| ensures Shaped(template[i]) {
        EntryComesFrom(sampled, indexed, s.train, s.dims, options, ordered, i);
        EntryShape(sampled, indexed, s.train, s.dims, options, i, ordered[i], template[i]);
        ShapedFrom(ordered[i], template[i]);
        assert BuildEntry(sampled, indexed, s.train, s.dims, options, i, ordered[i]) == Ok(template[i]);
        EntryPairs(sampled, indexed, s.train, s.dims, options, i, ordered[i], template[i]);
      }
    }
  }

  lemma ShapedFrom(r: Record, e: Entry)
    requires Readable(r) && Signature(e.pc, e.opcode, e.mask, e.pairs) == SignatureOf(r)
    ensures Signature(e.pc, e.opcode, e.mask, e.pairs).Ok?
  {
    hide Signature;
  }

  lemma EntryPairs(sampled: map<int, seq<Record>>, indexed: map<int, Index>, ctas: seq<int>, dims: Dims,
                   options: Options, ordinal: nat, r: Record, e: Entry)
    requires ctas != [] && AllNonEmpty(sampled, ctas)
    requires BuildEntry(sampled, indexed, ctas, dims, options, ordinal, r) == Ok(e)
    ensures e.pairs == PairsOf(r.groups) && |e.rules| == |r.groups| && |e.pairs| == |r.groups|
  {
    hide SlotRules, SlotEverywhereAtAll, MinTime;
  }

  // ---------------------------------------------------------- meaning preserved

  function HoldsCta(b: int): StructuralClass -> bool {
    (c: StructuralClass) => b in c.ctas
  }

  /** The template a profile uses for a CTA. */
  function TemplateFor(p: Profile, b: int): seq<Entry> {
    match p
    case Uniform(template) => template
    case Structural(classes, _) =>
      var k := First(HoldsCta(b), classes);
      if k == -1 then [] else classes[k].template
  }

  lemma TrainBelow(s: Setup)
    requires SelectionOk(s)
    ensures CtasBelow(s.train, s.dims) && Distinct(s.train)
    ensures CtaCount(s.dims) == s.n
  {
    hide CtaCount;
    forall i | 0 <= i < |s.train| ensures 0 <= s.train[i] < s.n {
      assert Selected(s)[i] == s.train[i];
    }
  }

  lemma SameStructureFrom(sampled: map<int, seq<Record>>, s: Setup)
    requires IndexableAt(sampled, Selected(s)) && Homogeneous(Structures(sampled, Selected(s))) && s.train != []
    ensures SameStructure(sampled, s.train)
    ensures forall i :: 0 <= i < |s.holdout| ==>
              && s.holdout[i] in sampled && Indexable(sampled[s.holdout[i]])
              && s.train[0] in sampled && Indexable(sampled[s.train[0]])
              && Slots(sampled[s.holdout[i]]) == Slots(sampled[s.train[0]])
  {
    hide Slots, Indexable;
    var keys := Structures(sampled, Selected(s));
    assert Selected(s)[0] == s.train[0];
    forall i | 0 <= i < |s.train|
      ensures s.train[i] in sampled && Indexable(sampled[s.train[i]]) && keys[i] == Slots(sampled[s.train[i]])
    {
      assert Selected(s)[i] == s.train[i];
    }
    forall i | 0 <= i < |s.holdout|
      ensures s.holdout[i] in sampled && Indexable(sampled[s.holdout[i]])
              && keys[|s.train| + i] == Slots(sampled[s.holdout[i]])
    {
      assert Selected(s)[|s.train| + i] == s.holdout[i];
    }
  }

  lemma UniformMeaning(sampled: map<int, seq<Record>>, s: Setup, template: seq<Entry>, k: nat)
    requires WellSampled(sampled, Selected(s))
    requires ProfileOf(sampled, s) == Ok(Uniform(template)) && k < |Selected(s)|
    ensures Selected(s)[k] in sampled && Reproduces(template, Selected(s)[k], s.dims, sampled[Selected(s)[k]])
  {
    hide BuildTemplate, Reproduces, CtaCount, Slots, Indexable, Shaped, TemplateExactAt, GatePasses, IndexOf;
    IndexableFrom(sampled, Selected(s));
    var indexed := Indexes(sampled, Selected(s));
    TrainPrepared(sampled, s);
    TrainBelow(s);
    SameStructureFrom(sampled, s);
    var options := Options(s.memc, s.complete && s.uniformTables);
    if k < |s.train| {
      TemplateMeaning(sampled, indexed, s.train, s.dims, options, template, k);
    } else {
      TemplateShaped(sampled, s, template);
      var b := s.holdout[k - |s.train|];
      GateMeansExact(indexed, template, s.holdout, s.dims, k - |s.train|);
      assert PreparedAt(sampled, indexed, s.train[0]) && PreparedAt(sampled, indexed, b);
      NonEmptyTemplateAnchor(sampled, indexed, s.train, s.dims, options, template);
      HoldoutMeaning(sampled, indexed, s.train, s.dims, options, template, b);
    }
  }

  lemma GateMeansExact(indexed: map<int, Index>, template: seq<Entry>, holdout: seq<int>, dims: Dims, k: nat)
    requires forall i :: 0 <= i < |template| ==> Shaped(template[i])
    requires GatePasses(indexed, template, holdout, dims) && k < |holdout|
    ensures TemplateExactAt(indexed, template, holdout[k], dims) && template != []
  {
    hide Shaped, TemplateExactAt, HasLane;
  }

  lemma NonEmptyTemplateAnchor(sampled: map<int, seq<Record>>, indexed: map<int, Index>, ctas: seq<int>, dims: Dims,
                               options: Options, template: seq<Entry>)
    requires Prepared(sampled, indexed, ctas) && ctas != [] && template != []
    requires BuildTemplate(sampled, indexed, ctas, dims, options) == Ok(template)
    ensures ctas[0] in sampled && sampled[ctas[0]] != []
  {
    hide BuildEntries, IndexOf;
  }

  /** What a structural profile consists of. */
  lemma StructuralShape(sampled: map<int, seq<Record>>, s: Setup, p: Profile)
    requires WellSampled(sampled, Selected(s)) && ProfileOf(sampled, s) == Ok(p) && p.Structural?
    ensures SelectionOk(s) && s.complete && Selected(s) == Range(s.n) && IndexableAt(sampled, Selected(s))
    ensures forall i :: 0 <= i < |Groups(Structures(sampled, Selected(s)))| ==>
              Prepared(sampled, Indexes(sampled, Selected(s)), Groups(Structures(sampled, Selected(s)))[i])
    ensures ClassList(sampled, Indexes(sampled, Selected(s)), Groups(Structures(sampled, Selected(s))), s.dims)
            == Ok(p.classes)
    ensures p.classById == ClassMap(Groups(Structures(sampled, Selected(s))), s.n)
  {
    hide BuildTemplate, ClassList, Groups, Slots, Indexable, ClassMap, Prepared, Indexes, GatePasses, Homogeneous;
    IndexableFrom(sampled, Selected(s));
    ClassesPrepared(sampled, s);
  }

  /** The class of a CTA, and the group it was formed from. */
  lemma ClassOfCta(sampled: map<int, seq<Record>>, s: Setup, p: Profile, g: seq<seq<int>>, b: int) returns (k: nat)
    requires WellSampled(sampled, Selected(s)) && ProfileOf(sampled, s) == Ok(p) && p.Structural? && 0 <= b < s.n
    requires IndexableAt(sampled, Selected(s)) && g == Groups(Structures(sampled, Selected(s)))
    ensures k == First(HoldsCta(b), p.classes) == First(HasMember(b), g)
    ensures k < |p.classes| == |g| && b in g[k] && p.classes[k].ctas == g[k]
    ensures Prepared(sampled, Indexes(sampled, Selected(s)), g[k])
    ensures BuildTemplate(sampled, Indexes(sampled, Selected(s)), g[k], s.dims, EXACT) == Ok(p.classes[k].template)
  {
    hide BuildTemplate, ClassList, Groups, Slots, Indexable, ClassMap, Prepared, Indexes, ProfileOf, ClassId,
      IsClass;
    StructuralShape(sampled, s, p);
    var indexed, keys := Indexes(sampled, Selected(s)), Structures(sampled, Selected(s));
    GroupsPartition(keys);
    assert InSome(g, b);
    forall i | 0 <= i < |g| ensures p.classes[i].ctas == g[i] {
      ClassListIs(sampled, indexed, g, s.dims, i);
    }
    var c :| 0 <= c < |g| && b in g[c];
    GroupOfMember(keys, g, b, c);
    SameFirst(p.classes, g, b);
    k := c;
    ClassListIs(sampled, indexed, g, s.dims, k);
  }

  lemma SameFirst(classes: seq<StructuralClass>, g: seq<seq<int>>, b: int)
    requires |classes| == |g| && forall i :: 0 <= i < |g| ==> classes[i].ctas == g[i]
    ensures First(HoldsCta(b), classes) == First(HasMember(b), g)
  {
    forall i | 0 <= i < |g| ensures HoldsCta(b)(classes[i]) <==> HasMember(b)(g[i]) {
    }
    var k, l := First(HoldsCta(b), classes), First(HasMember(b), g);
    if k >= 0 {
      assert HasMember(b)(g[k]);
    }
    if l >= 0 {
      assert HoldsCta(b)(classes[l]);
    }
  }

  lemma StructuralMeaning(sampled: map<int, seq<Record>>, s: Setup, p: Profile, b: int)
    requires WellSampled(sampled, Selected(s))
    requires ProfileOf(sampled, s) == Ok(p) && p.Structural? && 0 <= b < s.n
    ensures b in sampled && Reproduces(TemplateFor(p, b), b, s.dims, sampled[b])
  {
    hide BuildTemplate, Groups, Slots, Indexable, ClassMap, ClassId, CtaCount, Reproduces, ProfileOf, ClassList,
      Prepared, Indexes, IsClass;
    StructuralShape(sampled, s, p);
    var keys := Structures(sampled, Selected(s));
    var g := Groups(keys);
    var k := ClassOfCta(sampled, s, p, g, b);
    GroupsPartition(keys);
    ClassAt(keys, g, k);
    ClassInRange(keys, g[k]);
    TrainBelow(s);
    forall i | 0 <= i < |g[k]|
      ensures g[k][i] in sampled && Indexable(sampled[g[k][i]]) && Slots(sampled[g[k][i]]) == keys[g[k][i]]
    {
      assert Selected(s)[g[k][i]] == g[k][i];
    }
    assert SameStructure(sampled, g[k]);
    var i :| 0 <= i < |g[k]| && g[k][i] == b;
    TemplateMeaning(sampled, Indexes(sampled, Selected(s)), g[k], s.dims, EXACT, p.classes[k].template, i);
  }

  lemma SelectionOfOk(sampled: map<int, seq<Record>>, s: Setup)
    requires WellSampled(sampled, Selected(s)) && ProfileOf(sampled, s).Ok?
    ensures SelectionOk(s)
  {
  }

  /**
   * Meaning preservation: after a successful profile, in either mode and for every selected CTA,
   * trained on or held out, the template's events at the CTA are exactly the CTA's captured events.
   */
  lemma ProfilePreservesMeaning(sampled: map<int, seq<Record>>, s: Setup, p: Profile, k: nat)
    requires WellSampled(sampled, Selected(s))
    requires ProfileOf(sampled, s) == Ok(p) && k < |Selected(s)|
    ensures Selected(s)[k] in sampled
    ensures Reproduces(TemplateFor(p, Selected(s)[k]), Selected(s)[k], s.dims, sampled[Selected(s)[k]])
  {
    hide Reproduces, ProfileOf;
    if p.Uniform? {
      UniformMeaning(sampled, s, p.template, k);
    } else {
      StructuralIsComplete(sampled, s, p);
      StructuralMeaning(sampled, s, p, k);
    }
  }

  lemma StructuralIsComplete(sampled: map<int, seq<Record>>, s: Setup, p: Profile)
    requires WellSampled(sampled, Selected(s)) && ProfileOf(sampled, s) == Ok(p) && p.Structural?
    ensures s.complete && Selected(s) == Range(s.n)
  {
    hide BuildTemplate, ClassList, Groups, Slots;
  }

  // ---------------------------------------------------------- the class gate

  /** Every structural profile passes `generate`'s class gate. */
  lemma ProfilePassesGate(sampled: map<int, seq<Record>>, s: Setup, p: Profile)
    requires WellSampled(sampled, Selected(s)) && ProfileOf(sampled, s) == Ok(p) && p.Structural?
    ensures GateOk(p.classes, p.classById, s.n)
  {
    hide BuildTemplate, Groups, ClassId, Prepared, Slots, Indexable, Assigned, Ids, SetOf, Indexes, ClassOk, Blocks;
    StructuralIsComplete(sampled, s, p);
    IndexableFrom(sampled, Selected(s));
    SelectionOfOk(sampled, s);
    ClassesPrepared(sampled, s);
    var keys := Structures(sampled, Selected(s));
    var g := Groups(keys);
    GroupsPartition(keys);
    forall i | 0 <= i < |g| ensures p.classes[i].id == ClassId(i) && p.classes[i].ctas == g[i] {
      ClassListIs(sampled, Indexes(sampled, Selected(s)), g, s.dims, i);
    }
    GroupsPassGate(keys, g, p.classes, p.classById, s.n);
  }

  lemma GroupsPassGate<K(!new)>(keys: seq<K>, g: seq<seq<int>>, classes: seq<StructuralClass>, rawMap: seq<string>,
                         n: nat)
    requires |keys| == n > 0 && Partition(keys, g) && rawMap == ClassMap(g, n) && |classes| == |g|
    requires forall i :: 0 <= i < |g| ==> classes[i].id == ClassId(i) && classes[i].ctas == g[i]
    ensures GateOk(classes, rawMap, n)
  {
    hide ClassId, Partition, Assigned, Ids, ClassOk, Blocks, SetOf;
    assert classes != [] by { SomeClass(keys, g); }
    forall i | 0 <= i < |classes| ensures ClassOk(classes[i], rawMap, n) {
      GroupClassOk(keys, g, classes, rawMap, n, i);
    }
    forall i, j | 0 <= i < j < |classes| ensures classes[i].id != classes[j].id {
      if ClassId(i) == ClassId(j) {
        ClassIdInjective(i, j);
      }
    }
    CoverAssigned(keys, g, classes, n);
    MapNamesAreClassNames(classes, rawMap, n);
  }

  lemma SomeClass<K(!new)>(keys: seq<K>, g: seq<seq<int>>)
    requires |keys| > 0 && Partition(keys, g)
    ensures g != []
  {
    assert InSome(g, 0);
  }

  lemma GroupOfMember<K(!new)>(keys: seq<K>, g: seq<seq<int>>, b: int, i: nat)
    requires Partition(keys, g) && i < |g| && b in g[i]
    ensures 0 <= b < |keys| && First(HasMember(b), g) == i
  {
    assert IsClass(keys, g[i]) && HasMember(b)(g[i]);
    var c := First(HasMember(b), g);
    assert HasMember(b)(g[c]) && c <= i;
    assert IsClass(keys, g[c]);
  }

  lemma GroupClassOk<K(!new)>(keys: seq<K>, g: seq<seq<int>>, classes: seq<StructuralClass>, rawMap: seq<string>,
                       n: nat, i: nat)
    requires |keys| == n && Partition(keys, g) && rawMap == ClassMap(g, n) && |classes| == |g| && i < |g|
    requires classes[i].id == ClassId(i) && classes[i].ctas == g[i]
    ensures ClassOk(classes[i], rawMap, n)
  {
    hide ClassId, Partition;
    ClassAt(keys, g, i);
    ClassInRange(keys, g[i]);
    forall k | 0 <= k < |g[i]| ensures rawMap[g[i][k]] == ClassId(i) {
      GroupOfMember(keys, g, g[i][k], i);
    }
  }

  lemma ClassAt<K(!new)>(keys: seq<K>, g: seq<seq<int>>, i: nat)
    requires Partition(keys, g) && i < |g|
    ensures IsClass(keys, g[i])
  {
  }

  lemma CoverAssigned<K(!new)>(keys: seq<K>, g: seq<seq<int>>, classes: seq<StructuralClass>, n: nat)
    requires |keys| == n && Partition(keys, g) && |classes| == |g|
    requires forall i :: 0 <= i < |g| ==> classes[i].ctas == g[i]
    ensures Assigned(classes) == Blocks(n)
  {
    hide Blocks;
    forall b ensures b in Assigned(classes) <==> b in Blocks(n) {
      BlocksAre(n, b);
      if b in Assigned(classes) {
        var i, k :| 0 <= i < |classes| && 0 <= k < |classes[i].ctas| && classes[i].ctas[k] == b;
        assert IsClass(keys, g[i]) && b in g[i];
      }
      if 0 <= b < n {
        assert InSome(g, b);
        var c :| 0 <= c < |g| && b in g[c];
        assert b in classes[c].ctas;
        var k :| 0 <= k < |g[c]| && g[c][k] == b;
        assert classes[c].ctas[k] == b;
      }
    }
  }
}
