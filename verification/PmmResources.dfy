/** Sizing the PMM client and merging what a monitoring entry asks for (internal/provider/pmm.go:42-91). */
module PmmResources {

  import opened Prelude

  // Quantities in thousandths of their base unit, so that CPU and memory are both exact.
  type Quantities = map<string, int>

  datatype Requirements = Requirements(requests: Quantities, limits: Quantities)

  const KI := 1024 * 1000
  const GI := 1024 * 1024 * 1024 * 1000

  const MEM_MEDIUM := 8 * GI
  const MEM_LARGE := 32 * GI

  const REQUESTS_SMALL: Quantities := map["cpu" := 95, "memory" := 99604 * KI]
  const REQUESTS_MEDIUM: Quantities := map["cpu" := 228, "memory" := 199168 * KI]
  const REQUESTS_LARGE: Quantities := map["cpu" := 228, "memory" := 796907 * KI]

  /** The engine's memory: its limit unless that is missing or zero, else its request, else zero. */
  function MemoryLimitOrRequest(engine: Option<Requirements>): int {
    if engine.None? then 0
    else if "memory" in engine.value.limits && engine.value.limits["memory"] != 0 then engine.value.limits["memory"]
    else if "memory" in engine.value.requests then engine.value.requests["memory"]
    else 0
  }

  datatype Size = Small | Medium | Large

  function SizeOf(engine: Option<Requirements>): Size {
    var mem := MemoryLimitOrRequest(engine);
    if mem >= MEM_LARGE then Large else if mem >= MEM_MEDIUM then Medium else Small
  }

  // ------------------------------------------------------------- what the merge means

  /** The entry asks for more of this resource than it allows itself. */
  predicate Exceeds(entry: Requirements, k: string) {
    k in entry.limits && k in entry.requests && entry.requests[k] > entry.limits[k]
  }

  function Min(a: int, b: int): int { if a <= b then a else b }

  /** The merged requests: the entry's own, and the sized ones lowered to the entry's limits. */
  function MergedRequests(sized: Quantities, entry: Requirements): Quantities {
    map k | k in sized.Keys + entry.requests.Keys ::
      if k in entry.requests then entry.requests[k]
      else if k in entry.limits then Min(sized[k], entry.limits[k])
      else sized[k]
  }

  /** None when some entry request exceeds the entry's own limit. */
  function Merge(sized: Quantities, entry: Option<Requirements>): Option<Requirements> {
    if entry.None? then Some(Requirements(sized, map[]))
    else if exists k :: k in entry.value.limits && Exceeds(entry.value, k) then None
    else Some(Requirements(MergedRequests(sized, entry.value), entry.value.limits))
  }

  /** A merge never requests more than its limit. */
  lemma {:induction false} MergeIsBounded(sized: Quantities, entry: Option<Requirements>)
    requires Merge(sized, entry).Some?
    ensures var r := Merge(sized, entry).value;
            forall k :: k in r.requests && k in r.limits ==> r.requests[k] <= r.limits[k]
  {
  }

  /** A merge is refused exactly when the entry asks for more of something than it allows; otherwise it has the
      entry's limits and requests, and every other sized request, lowered to its limit if it exceeds that. */
  lemma {:induction false} MergeExactly(sized: Quantities, entry: Requirements)
    ensures Merge(sized, None) == Some(Requirements(sized, map[]))
    ensures Merge(sized, Some(entry)).None? <==>
              exists k :: k in entry.requests && k in entry.limits && entry.requests[k] > entry.limits[k]
    ensures Merge(sized, Some(entry)).Some? ==>
              var r := Merge(sized, Some(entry)).value;
              && r.limits == entry.limits && r.requests.Keys == sized.Keys + entry.requests.Keys
              && (forall k :: k in entry.requests ==> r.requests[k] == entry.requests[k])
              && (forall k :: k in sized && k !in entry.requests ==>
                    if k in entry.limits && entry.limits[k] < sized[k] then r.requests[k] == entry.limits[k]
                    else r.requests[k] == sized[k])
  {
    if k :| k in entry.requests && k in entry.limits && entry.requests[k] > entry.limits[k] {
      assert Exceeds(entry, k);
    }
  }

  /** The size follows the engine's memory limit or, when that is missing or zero, its request: large from
      32 Gi, medium from 8 Gi, small below and without either. */
  lemma {:induction false} SizeExactly(engine: Requirements)
    ensures SizeOf(None) == Small
    ensures var mem := if "memory" in engine.limits && engine.limits["memory"] != 0 then engine.limits["memory"]
                       else if "memory" in engine.requests then engine.requests["memory"] else 0;
            && (SizeOf(Some(engine)) == Large <==> mem >= 34_359_738_368_000)
            && (SizeOf(Some(engine)) == Small <==> mem < 8_589_934_592_000)
  {
  }

  // ------------------------------------------------------------------ resource names in order

  /** Go's string order. */
  predicate Below(a: string, b: string) {
    b != [] && (a == [] || a[0] < b[0] || (a[0] == b[0] && Below(a[1..], b[1..])))
  }

  lemma {:induction false} BelowTotal(a: string, b: string)
    ensures Below(a, b) || a == b || Below(b, a)
  {
    if a != [] && b != [] && a[0] == b[0] {
      BelowTotal(a[1..], b[1..]);
      assert a == [a[0]] + a[1..] && b == [b[0]] + b[1..];
    }
  }

  lemma {:induction false} BelowTransitive(a: string, b: string, c: string)
    requires Below(a, b) && Below(b, c)
    ensures Below(a, c)
  {
    if a != [] && a[0] == b[0] == c[0] {
      BelowTransitive(a[1..], b[1..], c[1..]);
    }
  }

  ghost predicate Ascending(ks: seq<string>) {
    forall i, j :: 0 <= i < j < |ks| ==> Below(ks[i], ks[j])
  }

  method Least(names: set<string>) returns (least: string)
    requires names != {}
    ensures least in names && forall k :: k in names && k != least ==> Below(least, k)
  {
    least :| least in names;
    var rest := names - {least};
    while rest != {}
      invariant least in names && rest <= names && least !in rest
      invariant forall k :: k in names && k !in rest && k != least ==> Below(least, k)
      decreases |rest|
    {
      var k :| k in rest;
      BelowTotal(least, k);
      if Below(k, least) {
        forall j | j in names && j !in rest && j != least
          ensures Below(k, j)
        {
          BelowTransitive(k, least, j);
        }
        least := k;
      }
      rest := rest - {k};
    }
  }

  /** slices.Sorted(maps.Keys(m)). */
  method SortedKeys(m: Quantities) returns (ks: seq<string>)
    ensures Ascending(ks) && forall k :: k in ks <==> k in m
  {
    ks := [];
    var rest := m.Keys;
    while rest != {}
      invariant rest <= m.Keys && Ascending(ks)
      invariant forall k :: k in ks <==> k in m.Keys - rest
      invariant forall i, k :: 0 <= i < |ks| && k in rest ==> Below(ks[i], k)
      decreases |rest|
    {
      var k := Least(rest);
      ks := ks + [k];
      rest := rest - {k};
    }
  }

  // --------------------------------------------------------------------- the merge as it runs

  /** A resource list in memory: Go maps are shared by reference. */
  class ResourceList {
    var q: Quantities

    constructor (q: Quantities)
      ensures this.q == q
    {
      this.q := q;
    }
  }

  /** The package-level tables every call shares. */
  datatype Tables = Tables(small: ResourceList, medium: ResourceList, large: ResourceList)

  datatype Outcome = Sized(requests: ResourceList, limits: Quantities) | TooHigh(resource: string)

  function TableFor(tables: Tables, engine: Option<Requirements>): ResourceList {
    match SizeOf(engine) case Small => tables.small case Medium => tables.medium case Large => tables.large
  }

  /** The least resource whose request exceeds its limit. */
  ghost predicate LeastExceeding(entry: Requirements, k: string) {
    Exceeds(entry, k) && forall j :: Exceeds(entry, j) && j != k ==> Below(k, j)
  }

  /** Every sized request the entry does not set itself, lowered to the entry's limit. */
  ghost predicate Lowered(q: Quantities, sized: Quantities, entry: Requirements, names: set<string>) {
    && q.Keys == sized.Keys
    && forall k :: k in q && k !in entry.requests ==>
                     q[k] == if k in names && k in entry.limits then Min(sized[k], entry.limits[k]) else sized[k]
  }

  lemma {:induction false} LowerOne(
    q: Quantities, sized: Quantities, entry: Requirements, names: set<string>, name: string)
    requires Lowered(q, sized, entry, names) && name in entry.limits && name !in entry.requests
    ensures var q' := if name in q && q[name] > entry.limits[name] then q[name := entry.limits[name]] else q;
            Lowered(q', sized, entry, names + {name})
  {
  }

  /** The loop over the entry's limits. */
  method LowerToLimits(out: ResourceList, entry: Requirements) returns (tooHigh: Option<string>)
    modifies out
    ensures tooHigh.None? ==> Lowered(out.q, old(out.q), entry, entry.limits.Keys) && forall k :: !Exceeds(entry, k)
    ensures tooHigh.Some? ==> LeastExceeding(entry, tooHigh.value)
  {
    var names := SortedKeys(entry.limits);
    ghost var done: set<string> := {};
    for i := 0 to |names|
      invariant done == set k | k in names[..i]
      invariant forall k :: k in done ==> !Exceeds(entry, k)
      invariant Lowered(out.q, old(out.q), entry, done)
    {
      var name := names[i];
      assert name in names;
      var limit := entry.limits[name];
      assert names[..i + 1] == names[..i] + [name];
      ghost var before := done;
      done := done + {name};
      if name in entry.requests {
        if entry.requests[name] > limit {
          FirstExceedingIsLeast(entry, names, i);
          return Some(name);
        }
        continue;
      }
      LowerOne(out.q, old(out.q), entry, before, name);
      if name in out.q && out.q[name] > limit {
        out.q := out.q[name := limit];
      }
    }
    assert done == entry.limits.Keys by {
      assert names[..|names|] == names;
    }
    return None;
  }

  lemma {:induction false} FirstExceedingIsLeast(entry: Requirements, names: seq<string>, i: nat)
    requires Ascending(names) && (forall k :: k in names <==> k in entry.limits)
    requires i < |names| && Exceeds(entry, names[i])
    requires forall k :: k in names[..i] ==> !Exceeds(entry, k)
    ensures LeastExceeding(entry, names[i])
  {
  }

  /** On success a fresh list holding the merge; on failure the least resource whose request exceeds
      its limit. The shared tables are left as they are: nothing is modified. */
  method PmmResources(tables: Tables, engine: Option<Requirements>, entry: Option<Requirements>) returns (r: Outcome)
    ensures match r
            case Sized(requests, limits) =>
              fresh(requests) && Merge(TableFor(tables, engine).q, entry) == Some(Requirements(requests.q, limits))
            case TooHigh(k) =>
              entry.Some? && LeastExceeding(entry.value, k) && Merge(TableFor(tables, engine).q, entry) == None
  {
    var table := tables.small;
    var mem := MemoryLimitOrRequest(engine);
    if mem >= MEM_LARGE {
      table := tables.large;
    } else if mem >= MEM_MEDIUM {
      table := tables.medium;
    }
    var out := new ResourceList(table.q);
    if entry.None? {
      return Sized(out, map[]);
    }
    var tooHigh := LowerToLimits(out, entry.value);
    if tooHigh.Some? {
      return TooHigh(tooHigh.value);
    }
    out.q := out.q + entry.value.requests;
    assert out.q == MergedRequests(table.q, entry.value);
    r := Sized(out, entry.value.limits);
  }
}
