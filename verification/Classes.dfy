/** Structural classes of CTAs: how `profile` forms them and what `generate` demands of them. */
module Classes {
  import opened Common
  import opened Sequences
  import opened Order
  import opened Numerals
  import opened Template

  datatype StructuralClass = StructuralClass(id: string, ctas: seq<int>, template: seq<Entry>)

  // ----------------------------------------------------------------- grouping

  function KeyIs<K(==)>(keys: seq<K>, key: K): int -> bool {
    (a: int) => 0 <= a < |keys| && keys[a] == key
  }

  /** The CTAs of a given structure, ascending. */
  function Members<K(==)>(keys: seq<K>, key: K): seq<int> {
    Filter(KeyIs(keys, key), Range(|keys|))
  }

  /** No smaller CTA has the structure of this one. */
  function Leads<K(==)>(keys: seq<K>): int -> bool {
    (b: int) => 0 <= b < |keys| && keys[b] !in keys[..b]
  }

  function Leaders<K(==)>(keys: seq<K>): seq<int> {
    Filter(Leads(keys), Range(|keys|))
  }

  function GroupsLedBy<K(==)>(keys: seq<K>, leaders: seq<int>): (g: seq<seq<int>>)
    requires forall i :: 0 <= i < |leaders| ==> 0 <= leaders[i] < |keys|
    ensures |g| == |leaders| && forall i :: 0 <= i < |g| ==> g[i] == Members(keys, keys[leaders[i]])
  {
    seq(|leaders|, i requires 0 <= i < |leaders| => Members(keys, keys[leaders[i]]))
  }

  /** The classes of equal structure, in the order of their smallest members; keys[b] is the structure of CTA b. */
  function Groups<K(==)>(keys: seq<K>): seq<seq<int>> {
    LeadersInRange(keys);
    GroupsLedBy(keys, Leaders(keys))
  }

  lemma LeadersInRange<K>(keys: seq<K>)
    ensures forall i :: 0 <= i < |Leaders(keys)| ==> 0 <= Leaders(keys)[i] < |keys|
    ensures forall b :: b in Leaders(keys) <==> Leads(keys)(b)
  {
    FilterMembers(Leads(keys), Range(|keys|));
    forall i | 0 <= i < |Leaders(keys)| ensures 0 <= Leaders(keys)[i] < |keys| {
      assert Leaders(keys)[i] in Leaders(keys);
    }
    forall b ensures b in Leaders(keys) <==> Leads(keys)(b) {
      if 0 <= b < |keys| {
        assert Range(|keys|)[b] == b;
      }
    }
  }

  lemma MembersAre<K>(keys: seq<K>, key: K, b: int)
    ensures b in Members(keys, key) <==> 0 <= b < |keys| && keys[b] == key
  {
    FilterMembers(KeyIs(keys, key), Range(|keys|));
    if 0 <= b < |keys| {
      assert Range(|keys|)[b] == b;
    }
  }

  ghost predicate Ascending(s: seq<int>) {
    forall i, j :: 0 <= i < j < |s| ==> s[i] < s[j]
  }

  lemma {:induction false} FilterAscending(p: int -> bool, s: seq<int>)
    requires Ascending(s)
    ensures Ascending(Filter(p, s))
  {
    if s != [] {
      FilterAscending(p, s[1..]);
      FilterMembers(p, s[1..]);
      var t := Filter(p, s[1..]);
      forall j | 0 <= j < |t| ensures s[0] < t[j] {
        assert t[j] in t;
      }
    }
  }

  /** A class: all CTAs of one structure, each once, in ascending order. */
  ghost predicate IsClass<K(!new)>(keys: seq<K>, c: seq<int>) {
    c != [] && Ascending(c) && forall b :: b in c ==> 0 <= b < |keys| && 0 <= c[0] < |keys| && keys[b] == keys[c[0]]
  }

  /** The classes are uniform, told apart by structure, and between them hold every CTA. */
  ghost predicate Partition<K(!new)>(keys: seq<K>, g: seq<seq<int>>) {
    && (forall c :: 0 <= c < |g| ==> IsClass(keys, g[c]))
    && (forall c, d, a, b :: 0 <= c < d < |g| && a in g[c] && b in g[d] && 0 <= a < |keys| && 0 <= b < |keys| ==>
          keys[a] != keys[b])
    && (forall b :: 0 <= b < |keys| ==> InSome(g, b))
  }

  ghost predicate InSome(g: seq<seq<int>>, b: int) {
    exists c :: 0 <= c < |g| && b in g[c]
  }

  lemma MembersClass<K(!new)>(keys: seq<K>, l: int)
    requires 0 <= l < |keys|
    ensures IsClass(keys, Members(keys, keys[l]))
  {
    var c := Members(keys, keys[l]);
    FilterAscending(KeyIs(keys, keys[l]), Range(|keys|));
    MembersAre(keys, keys[l], l);
    MembersAre(keys, keys[l], c[0]);
    forall b | b in c ensures 0 <= b < |keys| && keys[b] == keys[l] {
      MembersAre(keys, keys[l], b);
    }
  }

  lemma HasLeader<K(!new)>(keys: seq<K>, b: int) returns (l: int)
    requires 0 <= b < |keys|
    ensures 0 <= l <= b && keys[l] == keys[b] && Leads(keys)(l)
    decreases b
  {
    if keys[b] in keys[..b] {
      var a :| 0 <= a < b && keys[..b][a] == keys[b];
      l := HasLeader(keys, a);
    } else {
      l := b;
    }
  }

  /** Grouping by structure partitions the grid. */
  lemma GroupsPartition<K(!new)>(keys: seq<K>)
    ensures Partition(keys, Groups(keys))
  {
    hide Members, Leaders;
    var leaders, g := Leaders(keys), Groups(keys);
    LeadersInRange(keys);
    forall c | 0 <= c < |g| ensures IsClass(keys, g[c]) {
      MembersClass(keys, leaders[c]);
    }
    forall c, d, a, b | 0 <= c < d < |g| && a in g[c] && b in g[d] && 0 <= a < |keys| && 0 <= b < |keys|
      ensures keys[a] != keys[b]
    {
      MembersAre(keys, keys[leaders[c]], a);
      MembersAre(keys, keys[leaders[d]], b);
      LeadersDiffer(keys, c, d);
    }
    forall b | 0 <= b < |keys| ensures InSome(g, b) {
      var l := HasLeader(keys, b);
      var c :| 0 <= c < |leaders| && leaders[c] == l;
      MembersAre(keys, keys[l], b);
      assert b in g[c];
    }
  }

  lemma LeadersDiffer<K(!new)>(keys: seq<K>, c: nat, d: nat)
    requires c < d < |Leaders(keys)|
    ensures 0 <= Leaders(keys)[c] < Leaders(keys)[d] < |keys|
    ensures keys[Leaders(keys)[c]] != keys[Leaders(keys)[d]]
  {
    LeadersInRange(keys);
    FilterAscending(Leads(keys), Range(|keys|));
    var a, b := Leaders(keys)[c], Leaders(keys)[d];
    assert b in Leaders(keys);
    assert keys[..b][a] == keys[a];
  }

  /** More than one class exactly when two CTAs differ in structure. */
  lemma OneClassIffUniform<K(!new)>(keys: seq<K>)
    ensures |Groups(keys)| <= 1 <==> forall b :: 0 <= b < |keys| ==> keys[b] == keys[0]
  {
    hide Members;
    var leaders := Leaders(keys);
    LeadersInRange(keys);
    if |leaders| <= 1 {
      forall b | 0 <= b < |keys| ensures keys[b] == keys[0] {
        var l := HasLeader(keys, b);
        var m := HasLeader(keys, 0);
        assert l in leaders && m in leaders;
      }
    } else {
      LeadersDiffer(keys, 0, 1);
    }
  }

  lemma FilterRangeStep(p: int -> bool, b: nat)
    ensures Filter(p, Range(b + 1)) == Filter(p, Range(b)) + if p(b) then [b] else []
  {
    assert Range(b + 1) == Range(b) + [b];
    FilterAppend(p, Range(b), [b]);
    FilterOne(p, b);
  }

  /** The dictionary after the CTAs below `b`: for each structure seen, its members so far. */
  ghost predicate Bucketed<K(!new)>(buckets: map<K, seq<int>>, keys: seq<K>, b: nat)
    requires b <= |keys|
  {
    forall key :: if key in keys[..b] then key in buckets && buckets[key] == Filter(KeyIs(keys, key), Range(b))
                  else key !in buckets
  }

  lemma BucketStep<K(!new)>(buckets: map<K, seq<int>>, keys: seq<K>, b: nat)
    requires b < |keys| && Bucketed(buckets, keys, b)
    ensures Bucketed(buckets[keys[b] := (if keys[b] in buckets then buckets[keys[b]] else []) + [b]], keys, b + 1)
  {
    hide Filter;
    assert keys[..b + 1] == keys[..b] + [keys[b]];
    forall key {
      FilterRangeStep(KeyIs(keys, key), b);
    }
    if keys[b] !in keys[..b] {
      NoneYet(keys, b);
    }
  }

  lemma NoneYet<K(!new)>(keys: seq<K>, b: nat)
    requires b < |keys| && keys[b] !in keys[..b]
    ensures Filter(KeyIs(keys, keys[b]), Range(b)) == []
  {
    var p := KeyIs(keys, keys[b]);
    forall a | 0 <= a < b ensures !p(Range(b)[a]) {
      assert keys[..b][a] == keys[a];
    }
    FilterNone(p, Range(b));
  }

  /**
   * The grouping part of `profile`: a dictionary from structure to members, filled CTA by CTA, and
   * its entries in the order of their smallest members.
   */
  method GroupByStructure<K(==, !new)>(keys: seq<K>) returns (g: seq<seq<int>>)
    ensures g == Groups(keys)
  {
    hide Filter, Bucketed;
    var buckets: map<K, seq<int>>, leaders: seq<int> := map[], [];
    NoBuckets(keys);
    for b := 0 to |keys|
      invariant Bucketed(buckets, keys, b)
      invariant leaders == Filter(Leads(keys), Range(b))
    {
      FilterRangeStep(Leads(keys), b);
      InBucketsIffSeen(buckets, keys, b, keys[b]);
      if keys[b] !in buckets {
        leaders := leaders + [b];
      }
      BucketStep(buckets, keys, b);
      buckets := buckets[keys[b] := (if keys[b] in buckets then buckets[keys[b]] else []) + [b]];
    }
    assert keys[..|keys|] == keys;
    LeadersInRange(keys);
    assert leaders == Leaders(keys);
    forall i | 0 <= i < |leaders|
      ensures keys[leaders[i]] in buckets && buckets[keys[leaders[i]]] == Members(keys, keys[leaders[i]])
    {
      InBucketsIffSeen(buckets, keys, |keys|, keys[leaders[i]]);
    }
    g := seq(|leaders|, i requires 0 <= i < |leaders| => buckets[keys[leaders[i]]]);
  }

  lemma NoBuckets<K(!new)>(keys: seq<K>)
    ensures Bucketed(map[], keys, 0) && forall p: int -> bool :: Filter(p, Range(0)) == []
  {
  }

  lemma InBucketsIffSeen<K(!new)>(buckets: map<K, seq<int>>, keys: seq<K>, b: nat, key: K)
    requires b <= |keys| && Bucketed(buckets, keys, b)
    ensures key in buckets <==> key in keys[..b]
    ensures key in buckets ==> buckets[key] == Filter(KeyIs(keys, key), Range(b))
  {
  }

  // --------------------------------------------------------------- class names

  /** Class names carry the class number with at least two digits. */
  function ClassId(i: nat): (id: string)
    ensures id != ""
  {
    "class-" + (if i < 10 then "0" else "") + FormatNat(i, 10)
  }

  lemma ClassIdInjective(i: nat, j: nat)
    requires ClassId(i) == ClassId(j)
    ensures i == j
  {
    NumberOfClassId(i);
    NumberOfClassId(j);
  }

  lemma NumberOfClassId(i: nat)
    ensures |ClassId(i)| > 6 && DigitsValue(ClassId(i)[6..], 10) == i
  {
    var digits := FormatNat(i, 10);
    DigitsOfFormatNat(i, 10);
    if i < 10 {
      assert ClassId(i)[6..] == "0" + digits;
      assert digits == [DigitChar(i)];
      DigitsValueAppend("0", DigitChar(i), 10);
      DigitsValueAppend([], '0', 10);
      assert "0" == [] + ['0'];
      assert DigitsValue([], 10) == 0;
    } else {
      assert ClassId(i)[6..] == digits;
    }
  }

  // ------------------------------------------------------------ generation gate

  predicate RangedTo(c: StructuralClass, rawMap: seq<string>, n: nat, k: nat)
    requires k <= |c.ctas|
  {
    forall i :: 0 <= i < k ==> 0 <= c.ctas[i] < n && n == |rawMap| && rawMap[c.ctas[i]] == c.id
  }

  predicate ClassOk(c: StructuralClass, rawMap: seq<string>, n: nat) {
    c.id != "" && c.ctas != [] && RangedTo(c, rawMap, n, |c.ctas|) && Distinct(c.ctas)
  }

  function Ids(classes: seq<StructuralClass>): set<string> {
    set i | 0 <= i < |classes| :: classes[i].id
  }

  function Assigned(classes: seq<StructuralClass>): set<int> {
    set i, k | 0 <= i < |classes| && 0 <= k < |classes[i].ctas| :: classes[i].ctas[k]
  }

  function Blocks(n: nat): set<int> {
    SetOf(Range(n))
  }

  lemma BlocksAre(n: nat, b: int)
    ensures b in Blocks(n) <==> 0 <= b < n
  {
    if 0 <= b < n {
      assert Range(n)[b] == b;
    }
  }

  /** What `generate` requires of a structural profile. */
  predicate GateOk(classes: seq<StructuralClass>, rawMap: seq<string>, n: nat) {
    && classes != [] && |rawMap| == n
    && (forall i :: 0 <= i < |classes| ==> ClassOk(classes[i], rawMap, n))
    && (forall i, j :: 0 <= i < j < |classes| ==> classes[i].id != classes[j].id)
    && Assigned(classes) == Blocks(n)
    && SetOf(rawMap) == Ids(classes)
  }

  /**
   * Classes with different, nonempty names, none empty and none with a CTA twice, that cover the grid, and a
   * map that names the class of each CTA.
   */
  ghost predicate WellTabled(classes: seq<StructuralClass>, rawMap: seq<string>, n: nat) {
    && classes != [] && |rawMap| == n
    && (forall i :: 0 <= i < |classes| ==> Accepted(classes[i], rawMap, n))
    && (forall i, j :: 0 <= i < j < |classes| ==> classes[i].id != classes[j].id)
    && (forall b :: 0 <= b < n ==> HasClass(classes, b))
  }

  /** The gate accepts exactly these tables. */
  lemma GateAcceptsExactlyWhen(classes: seq<StructuralClass>, rawMap: seq<string>, n: nat)
    ensures GateOk(classes, rawMap, n) <==> WellTabled(classes, rawMap, n)
  {
    hide Blocks, Assigned, HasClass, ClassOk, Accepted;
    forall i | 0 <= i < |classes| ensures ClassOk(classes[i], rawMap, n) <==> Accepted(classes[i], rawMap, n) {
      AcceptedIs(classes[i], rawMap, n);
    }
    if GateOk(classes, rawMap, n) || WellTabled(classes, rawMap, n) {
      CoversExactly(classes, rawMap, n);
      if Assigned(classes) == Blocks(n) {
        MapNamesAreClassNames(classes, rawMap, n);
      }
    }
  }

  lemma CoversExactly(classes: seq<StructuralClass>, rawMap: seq<string>, n: nat)
    requires forall i :: 0 <= i < |classes| ==> Accepted(classes[i], rawMap, n)
    ensures Assigned(classes) == Blocks(n) <==> forall b :: 0 <= b < n ==> HasClass(classes, b)
  {
    hide Blocks, Assigned;
    forall b ensures b in Blocks(n) <==> 0 <= b < n {
      BlocksAre(n, b);
    }
    forall b ensures b in Assigned(classes) <==> HasClass(classes, b) {
      AssignedIs(classes, b);
    }
    forall b | b in Assigned(classes) ensures b in Blocks(n) {
      var i :| 0 <= i < |classes| && b in classes[i].ctas;
      assert Accepted(classes[i], rawMap, n);
    }
  }

  /** The class is named and not empty, has no CTA twice, and the map names it at each of its CTAs. */
  predicate Accepted(c: StructuralClass, rawMap: seq<string>, n: nat) {
    && c.id != "" && c.ctas != [] && Distinct(c.ctas)
    && forall b :: b in c.ctas ==> 0 <= b < n && n == |rawMap| && rawMap[b] == c.id
  }

  lemma AcceptedIs(c: StructuralClass, rawMap: seq<string>, n: nat)
    ensures ClassOk(c, rawMap, n) <==> Accepted(c, rawMap, n)
  {
    if Accepted(c, rawMap, n) {
      forall i | 0 <= i < |c.ctas| ensures 0 <= c.ctas[i] < n && n == |rawMap| && rawMap[c.ctas[i]] == c.id {
        assert c.ctas[i] in c.ctas;
      }
    }
  }

  ghost predicate HasClass(classes: seq<StructuralClass>, b: int) {
    exists i :: 0 <= i < |classes| && b in classes[i].ctas
  }

  lemma AssignedIs(classes: seq<StructuralClass>, b: int)
    ensures b in Assigned(classes) <==> HasClass(classes, b)
  {
    if i :| 0 <= i < |classes| && b in classes[i].ctas {
      var k :| 0 <= k < |classes[i].ctas| && classes[i].ctas[k] == b;
    }
  }

  /** A profile that passes the gate partitions the grid, and its map is membership. */
  lemma GatePartitions(classes: seq<StructuralClass>, rawMap: seq<string>, n: nat, b: int)
    requires GateOk(classes, rawMap, n) && 0 <= b < n
    ensures exists i :: 0 <= i < |classes| && b in classes[i].ctas
    ensures forall i :: 0 <= i < |classes| ==> (b in classes[i].ctas <==> rawMap[b] == classes[i].id)
    ensures forall i, j :: 0 <= i < |classes| && 0 <= j < |classes| && b in classes[i].ctas && b in classes[j].ctas ==>
              i == j
  {
    BlocksAre(n, b);
    assert b in Assigned(classes);
    var i, k :| 0 <= i < |classes| && 0 <= k < |classes[i].ctas| && classes[i].ctas[k] == b;
    forall j | 0 <= j < |classes| && b in classes[j].ctas ensures rawMap[b] == classes[j].id {
      assert ClassOk(classes[j], rawMap, n);
    }
    forall j | 0 <= j < |classes| && rawMap[b] == classes[j].id ensures j == i {
      assert classes[i].id == classes[j].id;
    }
  }

  /** The last test of the gate follows from the others. */
  lemma MapNamesAreClassNames(classes: seq<StructuralClass>, rawMap: seq<string>, n: nat)
    requires |rawMap| == n && Assigned(classes) == Blocks(n)
    requires forall i :: 0 <= i < |classes| ==> ClassOk(classes[i], rawMap, n)
    ensures SetOf(rawMap) == Ids(classes)
  {
    var names := SetOf(rawMap);
    forall b | 0 <= b < n ensures rawMap[b] in Ids(classes) {
      BlocksAre(n, b);
      assert b in Assigned(classes);
      var i, k :| 0 <= i < |classes| && 0 <= k < |classes[i].ctas| && classes[i].ctas[k] == b;
      assert ClassOk(classes[i], rawMap, n);
    }
    forall i | 0 <= i < |classes| ensures classes[i].id in names {
      assert ClassOk(classes[i], rawMap, n);
      assert rawMap[classes[i].ctas[0]] == classes[i].id;
    }
  }

  // ------------------------------------------------------------ template order

  /** The CTA's own delta from the entry's table, or else the anchor's delta. */
  function OwnDelta(e: Entry, block: int): int {
    if e.deltaByCta.Some? && block in e.deltaByCta.value then e.deltaByCta.value[block] else e.delta
  }

  function OwnKey(block: int): Entry -> seq<int> {
    (e: Entry) => [OwnDelta(e, block), e.ordinal]
  }

  function AnchorKey(e: Entry): seq<int> {
    [e.delta, e.ordinal]
  }

  ghost predicate TemplatesSorted(m: map<int, seq<Entry>>, c: StructuralClass, k: nat)
    requires k <= |c.ctas|
  {
    forall i :: 0 <= i < k ==> c.ctas[i] in m && m[c.ctas[i]] == SortBy(OwnKey(c.ctas[i]), c.template)
  }

  predicate Untaken(c: StructuralClass, taken: set<int>, k: nat)
    requires k <= |c.ctas|
  {
    forall i :: 0 <= i < k ==> c.ctas[i] !in taken
  }

  lemma OneMoreCta(c: StructuralClass, rawMap: seq<string>, n: nat, before: map<int, seq<Entry>>,
                   m: map<int, seq<Entry>>, k: nat)
    requires k < |c.ctas| && RangedTo(c, rawMap, n, k) && Untaken(c, before.Keys, k) && Distinct(c.ctas[..k])
    requires m.Keys == before.Keys + SetOf(c.ctas[..k]) && TemplatesSorted(m, c, k)
    requires forall x :: x in before ==> m[x] == before[x]
    requires 0 <= c.ctas[k] < n == |rawMap| && c.ctas[k] !in m && rawMap[c.ctas[k]] == c.id
    ensures var m' := m[c.ctas[k] := SortBy(OwnKey(c.ctas[k]), c.template)];
      && RangedTo(c, rawMap, n, k + 1) && Untaken(c, before.Keys, k + 1) && Distinct(c.ctas[..k + 1])
      && m'.Keys == before.Keys + SetOf(c.ctas[..k + 1]) && TemplatesSorted(m', c, k + 1)
      && forall x :: x in before ==> m'[x] == before[x]
  {
    hide SortBy, OwnKey;
    forall i | 0 <= i < k ensures c.ctas[i] != c.ctas[k] {
      assert c.ctas[i] in c.ctas[..k];
    }
    assert c.ctas[..k + 1] == c.ctas[..k] + [c.ctas[k]];
  }

  lemma TakenAlready(c: StructuralClass, k: nat)
    requires k < |c.ctas| && c.ctas[k] in c.ctas[..k]
    ensures !Distinct(c.ctas)
  {
    var i :| 0 <= i < k && c.ctas[..k][i] == c.ctas[k];
    assert c.ctas[i] == c.ctas[k];
  }

  /** The gate's loop over one class; the keys of `before` are the CTAs assigned to earlier classes. */
  method TakeClass(c: StructuralClass, rawMap: seq<string>, n: nat, before: map<int, seq<Entry>>)
    returns (r: Result<map<int, seq<Entry>>>)
    requires n == |rawMap|
    ensures r.Ok? <==> ClassOk(c, rawMap, n) && Untaken(c, before.Keys, |c.ctas|)
    ensures r.Ok? ==> r.value.Keys == before.Keys + SetOf(c.ctas)
    ensures r.Ok? ==> TemplatesSorted(r.value, c, |c.ctas|) && forall x :: x in before ==> r.value[x] == before[x]
  {
    hide SortBy, TemplatesSorted, OwnKey;
    if c.id == "" || c.ctas == [] {
      return Err(BadClassTable);
    }
    var templates := before;
    NoneSorted(templates, c);
    for k := 0 to |c.ctas|
      invariant RangedTo(c, rawMap, n, k) && Untaken(c, before.Keys, k) && Distinct(c.ctas[..k])
      invariant templates.Keys == before.Keys + SetOf(c.ctas[..k])
      invariant TemplatesSorted(templates, c, k)
      invariant forall x :: x in before ==> templates[x] == before[x]
    {
      assert c.ctas[k] in c.ctas[..k] || c.ctas[k] in before || c.ctas[k] !in templates;
      var block := c.ctas[k];
      if !(0 <= block < n) || block in templates {
        if block in c.ctas[..k] {
          TakenAlready(c, k);
        }
        return Err(BadClassTable);
      }
      if rawMap[block] != c.id {
        return Err(BadClassTable);
      }
      OneMoreCta(c, rawMap, n, before, templates, k);
      templates := templates[block := SortBy(OwnKey(block), c.template)];
    }
    assert c.ctas[..|c.ctas|] == c.ctas;
    return Ok(templates);
  }

  lemma NoneSorted(m: map<int, seq<Entry>>, c: StructuralClass)
    ensures TemplatesSorted(m, c, 0)
  {
  }

  lemma NotTakenTwice(classes: seq<StructuralClass>, rawMap: seq<string>, n: nat, i: nat)
    requires GateOk(classes, rawMap, n) && i < |classes|
    ensures Untaken(classes[i], Assigned(classes[..i]), |classes[i].ctas|)
  {
    assert ClassOk(classes[i], rawMap, n);
    forall k, j, l | 0 <= k < |classes[i].ctas| && 0 <= j < i && 0 <= l < |classes[j].ctas|
      ensures classes[j].ctas[l] != classes[i].ctas[k]
    {
      assert ClassOk(classes[j], rawMap, n) && classes[j].id != classes[i].id;
    }
    assert forall j :: 0 <= j < i ==> classes[..i][j] == classes[j];
  }

  lemma OneMoreClass(classes: seq<StructuralClass>, i: nat)
    requires i < |classes|
    ensures Ids(classes[..i + 1]) == Ids(classes[..i]) + {classes[i].id}
    ensures Assigned(classes[..i + 1]) == Assigned(classes[..i]) + SetOf(classes[i].ctas)
    ensures classes[i].id in Ids(classes[..i]) <==> exists j :: 0 <= j < i && classes[j].id == classes[i].id
  {
    var a, b := classes[..i], classes[..i + 1];
    assert forall j :: 0 <= j < i ==> a[j] == classes[j] == b[j];
    assert b[i] == classes[i];
    forall x | x in Assigned(b) ensures x in Assigned(a) + SetOf(classes[i].ctas) {
      var j, k :| 0 <= j < |b| && 0 <= k < |b[j].ctas| && b[j].ctas[k] == x;
      if j < i {
        assert a[j].ctas[k] == x;
      }
    }
    forall x | x in Assigned(a) ensures x in Assigned(b) {
      var j, k :| 0 <= j < |a| && 0 <= k < |a[j].ctas| && a[j].ctas[k] == x;
      assert b[j].ctas[k] == x;
    }
    forall x | x in classes[i].ctas ensures x in Assigned(b) {
      var k :| 0 <= k < |classes[i].ctas| && classes[i].ctas[k] == x;
      assert b[i].ctas[k] == x;
    }
  }

  ghost predicate TakenSorted(m: map<int, seq<Entry>>, classes: seq<StructuralClass>, n: nat)
    requires n <= |classes|
  {
    forall j :: 0 <= j < n ==> TemplatesSorted(m, classes[j], |classes[j].ctas|)
  }

  lemma SortedStays(m: map<int, seq<Entry>>, m': map<int, seq<Entry>>, classes: seq<StructuralClass>, i: nat)
    requires i < |classes| && TakenSorted(m, classes, i)
    requires m.Keys <= m'.Keys && (forall x :: x in m ==> m'[x] == m[x])
    requires TemplatesSorted(m', classes[i], |classes[i].ctas|)
    ensures TakenSorted(m', classes, i + 1)
  {
    hide SortBy;
    forall j | 0 <= j < i ensures TemplatesSorted(m', classes[j], |classes[j].ctas|) {
      assert TemplatesSorted(m, classes[j], |classes[j].ctas|);
    }
  }

  /** The class gate of `generate`, which also orders each CTA's template by its own deltas. */
  method ClassGate(classes: seq<StructuralClass>, rawMap: seq<string>, n: nat) returns (r: Result<map<int, seq<Entry>>>)
    ensures r.Ok? <==> GateOk(classes, rawMap, n)
    ensures r.Ok? ==> r.value.Keys == Blocks(n) && TakenSorted(r.value, classes, |classes|)
  {
    hide TemplatesSorted, TakenSorted, ClassOk, Untaken, Ids, Assigned, Blocks;
    if classes == [] || |rawMap| != n {
      return Err(BadClassTable);
    }
    var seen: set<string> := {};
    var templates: map<int, seq<Entry>> := map[];
    assert classes[..0] == [];
    NothingTaken(classes);
    for i := 0 to |classes|
      invariant forall j :: 0 <= j < i ==> ClassOk(classes[j], rawMap, n)
      invariant forall j, l :: 0 <= j < l < i ==> classes[j].id != classes[l].id
      invariant seen == Ids(classes[..i]) && templates.Keys == Assigned(classes[..i])
      invariant TakenSorted(templates, classes, i)
    {
      OneMoreClass(classes, i);
      if classes[i].id in seen {
        return Err(BadClassTable);
      }
      seen := seen + {classes[i].id};
      var next := TakeClass(classes[i], rawMap, n, templates);
      if next.Err? {
        if GateOk(classes, rawMap, n) {
          NotTakenTwice(classes, rawMap, n, i);
        }
        return Err(next.error);
      }
      SortedStays(templates, next.value, classes, i);
      templates := next.value;
    }
    assert classes[..|classes|] == classes;
    if templates.Keys != Blocks(n) || SetOf(rawMap) != seen {
      return Err(BadClassTable);
    }
    return Ok(templates);
  }

  lemma NothingTaken(classes: seq<StructuralClass>)
    ensures Ids([]) == {} && Assigned([]) == {} && TakenSorted(map[], classes, 0)
  {
  }
}
