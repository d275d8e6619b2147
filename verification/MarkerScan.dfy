/** Looking for capability markers in a large file: bounded reads, and a small cache of what was found. */
module MarkerScan {
  import opened Prelude

  type Bytes = seq<bv8>

  const CACHE_LIMIT: nat := 64

  // ----- Substrings ------------------------------------------------------------------------------------------

  predicate Contains(s: Bytes, part: Bytes) {
    |part| <= |s| && (s[..|part|] == part || (s != [] && Contains(s[1..], part)))
  }

  /** The part occurs at an offset. */
  predicate OccursAt(s: Bytes, part: Bytes, i: int) {
    0 <= i <= |s| - |part| && s[i..i + |part|] == part
  }

  lemma {:induction false} ContainsIffOccurs(s: Bytes, part: Bytes)
    ensures Contains(s, part) <==> exists i :: OccursAt(s, part, i)
  {
    if |part| <= |s| && s != [] {
      ContainsIffOccurs(s[1..], part);
      if s[..|part|] == part {
        assert OccursAt(s, part, 0);
      } else if Contains(s[1..], part) {
        var i :| OccursAt(s[1..], part, i);
        assert s[1..][i..i + |part|] == s[i + 1..i + 1 + |part|];
        assert OccursAt(s, part, i + 1);
      }
      forall i | OccursAt(s, part, i) && i > 0
        ensures OccursAt(s[1..], part, i - 1)
      {
        assert s[1..][i - 1..i - 1 + |part|] == s[i..i + |part|];
      }
    } else if |part| <= |s| {
      assert OccursAt(s, part, 0);
    }
  }

  function Flatten(chunks: seq<Bytes>): Bytes {
    if chunks == [] then [] else Flatten(chunks[..|chunks| - 1]) + chunks[|chunks| - 1]
  }

  function Found(markers: set<Bytes>, content: Bytes): set<Bytes> {
    set m <- markers | Contains(content, m)
  }

  // ----- The scan in chunks ----------------------------------------------------------------------------------

  function Last(s: Bytes, n: nat): Bytes {
    if n <= |s| then s[|s| - n..] else s
  }

  lemma OccursInSuffix(s: Bytes, part: Bytes, k: nat, i: int)
    requires k <= |s| && i >= k
    ensures OccursAt(s[k..], part, i - k) <==> OccursAt(s, part, i)
  {
    if i <= |s| - |part| {
      assert s[k..][i - k..i - k + |part|] == s[i..i + |part|];
    }
  }

  lemma OccursInPrefix(s: Bytes, part: Bytes, n: nat, i: int)
    requires n <= |s|
    ensures OccursAt(s[..n], part, i) <==> i + |part| <= n && OccursAt(s, part, i)
  {
    if 0 <= i && i + |part| <= n {
      assert s[..n][i..i + |part|] == s[i..i + |part|];
    }
  }

  /** A marker in what was read so far was there before, or lies in the kept overlap and the new chunk. */
  lemma OverlapSuffices(read: Bytes, chunk: Bytes, marker: Bytes, overlap: nat)
    requires marker != [] && |marker| - 1 <= overlap
    ensures Contains(read + chunk, marker) <==> Contains(read, marker) || Contains(Last(read, overlap) + chunk, marker)
  {
    var all, k := read + chunk, |read| - |Last(read, overlap)|;
    assert Last(read, overlap) + chunk == all[k..] && read == all[..|read|];
    ContainsIffOccurs(all, marker);
    ContainsIffOccurs(all[..|read|], marker);
    ContainsIffOccurs(all[k..], marker);
    hide Contains;
    forall i: int
      ensures OccursAt(all, marker, i) ==> OccursAt(all[..|read|], marker, i) || OccursAt(all[k..], marker, i - k)
      ensures OccursAt(all[..|read|], marker, i) ==> OccursAt(all, marker, i)
    {
      OccursInPrefix(all, marker, |read|, i);
      if i >= k {
        OccursInSuffix(all, marker, k, i);
      }
    }
    forall i: int | OccursAt(all[k..], marker, i)
      ensures OccursAt(all, marker, i + k)
    {
      OccursInSuffix(all, marker, k, i + k);
    }
  }

  method LongestMarker(markers: set<Bytes>) returns (n: nat)
    requires markers != {}
    ensures forall m <- markers :: |m| <= n
    ensures exists m <- markers :: |m| == n
  {
    var rest := markers;
    var first :| first in rest;
    n := |first|;
    rest := rest - {first};
    while rest != {}
      invariant rest <= markers
      invariant forall m <- markers - rest :: |m| <= n
      invariant exists m <- markers :: |m| == n
      decreases rest
    {
      var m :| m in rest;
      if |m| > n {
        n := |m|;
      }
      rest := rest - {m};
    }
  }

  /** Looks in one window for every marker not found yet. */
  method ScanWindow(window: Bytes, markers: set<Bytes>, before: set<Bytes>) returns (found: set<Bytes>)
    ensures found == before + Found(markers - before, window)
  {
    hide Contains;
    found := before;
    var rest := markers - before;
    while rest != {}
      invariant rest <= markers - before
      invariant found == before + Found(markers - before - rest, window)
      decreases rest
    {
      var marker :| marker in rest;
      if Contains(window, marker) {
        found := found + {marker};
      }
      rest := rest - {marker};
    }
    assert markers - before - rest == markers - before;
  }

  lemma WindowSuffices(read: Bytes, chunk: Bytes, markers: set<Bytes>, overlap: nat)
    requires forall m <- markers :: 1 <= |m| <= overlap + 1
    ensures var before := Found(markers, read);
            Found(markers, read + chunk) == before + Found(markers - before, Last(read, overlap) + chunk)
    ensures Last(Last(read, overlap) + chunk, overlap) == Last(read + chunk, overlap)
  {
    hide Contains;
    forall m <- markers
      ensures Contains(read + chunk, m) <==> Contains(read, m) || Contains(Last(read, overlap) + chunk, m)
    {
      OverlapSuffices(read, chunk, m, overlap);
    }
  }

  /** However the file is split into chunks, the scan finds exactly the markers that a search of the whole file finds. */
  method ScanChunks(chunks: seq<Bytes>, markers: set<Bytes>) returns (found: set<Bytes>)
    requires markers != {} && [] !in markers
    ensures found == Found(markers, Flatten(chunks))
  {
    found := {};
    var longest := LongestMarker(markers);
    var overlapSize := longest - 1;
    var overlap: Bytes := [];
    NothingIsEmpty(markers);
    hide Contains, Found, Last;
    for i := 0 to |chunks|
      invariant overlap == Last(Flatten(chunks[..i]), overlapSize)
      invariant found == Found(markers, Flatten(chunks[..i]))
    {
      assert chunks[..i + 1][..i] == chunks[..i];
      var window := overlap + chunks[i];
      WindowSuffices(Flatten(chunks[..i]), chunks[i], markers, overlapSize);
      found := ScanWindow(window, markers, found);
      overlap := Last(window, overlapSize);
    }
    assert chunks[..|chunks|] == chunks;
  }

  lemma NothingIsEmpty(markers: set<Bytes>)
    requires [] !in markers
    ensures Found(markers, []) == {} && forall m <- markers :: |m| >= 1
    ensures forall n: nat :: Last([], n) == []
  {
  }

  // ----- What the markers mean ----------------------------------------------------------------------------------

  datatype Markers = Markers(anyCli: set<Bytes>, reload: Bytes, required: set<Bytes>, goalUsage: Bytes,
                             goalStatus: Bytes, goalRpc: Bytes, model: Bytes)
  {
    function All(): set<Bytes> {
      anyCli + {reload} + required + {goalUsage, goalStatus, goalRpc, model}
    }
  }

  datatype Capabilities = Capabilities(hasSighupContract: bool, supportsModel: bool)

  function Evaluate(markers: Markers, found: set<Bytes>): Capabilities {
    Capabilities(
      && (exists m <- markers.anyCli :: m in found)
      && markers.reload in found
      && markers.required <= found
      && (markers.goalUsage in found || (markers.goalStatus in found && markers.goalRpc in found)),
      markers.model in found)
  }

  /** What a scan of the whole content at once says. */
  function FreshScan(markers: Markers, content: Bytes): Capabilities {
    Evaluate(markers, Found(markers.All(), content))
  }

  /** A file supports the reload contract exactly if it holds a marker of a command-line build, the reload marker, every
      required marker, and goals by usage or by status and call; and models exactly if it holds theirs. */
  lemma CapabilitiesAreExact(markers: Markers, content: Bytes)
    ensures FreshScan(markers, content).supportsModel <==> Contains(content, markers.model)
    ensures FreshScan(markers, content).hasSighupContract <==>
              && (exists m <- markers.anyCli :: Contains(content, m))
              && Contains(content, markers.reload)
              && (forall m <- markers.required :: Contains(content, m))
              && (Contains(content, markers.goalUsage)
                  || (Contains(content, markers.goalStatus) && Contains(content, markers.goalRpc)))
  {
    hide Contains;
    var found := Found(markers.All(), content);
    assert forall m <- markers.All() :: m in found <==> Contains(content, m);
    assert (exists m <- markers.anyCli :: m in found) <==> exists m <- markers.anyCli :: Contains(content, m);
  }

  // ----- The cache -------------------------------------------------------------------------------------------------

  /** What identifies the state of a file: device, inode, size, modification and change times. */
  datatype StatKey = StatKey(device: int, inode: int, size: int, modified: int, changed: int)

  datatype Status = Status(key: StatKey, isRegular: bool)

  function Without(order: seq<StatKey>, key: StatKey): seq<StatKey> {
    if order == [] then []
    else
      var rest := Without(order[..|order| - 1], key);
      if order[|order| - 1] == key then rest else rest + [order[|order| - 1]]
  }

  /** The keys in order of last use, with `key` used just now. */
  function Touched(order: seq<StatKey>, key: StatKey): seq<StatKey> {
    Without(order, key) + [key]
  }

  function Newest(order: seq<StatKey>): seq<StatKey> {
    if |order| <= CACHE_LIMIT then order else order[|order| - CACHE_LIMIT..]
  }

  predicate Distinct(order: seq<StatKey>) {
    forall i, j :: 0 <= i < j < |order| ==> order[i] != order[j]
  }

  lemma {:induction false} WithoutMembers(order: seq<StatKey>, key: StatKey)
    ensures forall k: StatKey :: k in Without(order, key) <==> k in order && k != key
    ensures key !in order ==> Without(order, key) == order
  {
    if order != [] {
      WithoutMembers(order[..|order| - 1], key);
      assert order == order[..|order| - 1] + [order[|order| - 1]];
    }
  }

  lemma {:induction false} WithoutIsDistinct(order: seq<StatKey>, key: StatKey)
    requires Distinct(order)
    ensures Distinct(Without(order, key))
    ensures |Without(order, key)| == if key in order then |order| - 1 else |order|
  {
    if order != [] {
      var rest, last := order[..|order| - 1], order[|order| - 1];
      assert order == rest + [last] && last !in rest;
      WithoutIsDistinct(rest, key);
      WithoutMembers(rest, key);
    }
  }

  lemma {:induction false} WithoutOfConcatenation(a: seq<StatKey>, b: seq<StatKey>, key: StatKey)
    ensures Without(a + b, key) == Without(a, key) + Without(b, key)
  {
    if b == [] {
      assert a + b == a;
    } else {
      WithoutOfConcatenation(a, b[..|b| - 1], key);
      assert (a + b)[..|a + b| - 1] == a + b[..|b| - 1] && (a + b)[|a + b| - 1] == b[|b| - 1];
    }
  }

  lemma NewestOfConcatenation(a: seq<StatKey>, b: seq<StatKey>)
    requires a == [] || |b| >= CACHE_LIMIT
    ensures Newest(a + b) == Newest(b)
  {
    if a == [] {
      assert a + b == b;
    }
  }

  /** Keeping only the newest keys and then touching one is the same as touching it among all and keeping the newest. */
  lemma NewestCommutes(order: seq<StatKey>, key: StatKey)
    requires Distinct(order)
    ensures Newest(Touched(Newest(order), key)) == Newest(Touched(order, key))
    ensures Distinct(Touched(order, key))
  {
    var kept := Newest(order);
    var dropped := order[..|order| - |kept|];
    assert order == dropped + kept && Distinct(kept);
    WithoutOfConcatenation(dropped, kept, key);
    TouchedIsDistinct(order, key);
    TouchedIsDistinct(kept, key);
    hide Without, Distinct;
    assert Touched(order, key) == Without(dropped, key) + Touched(kept, key);
    NothingWithout(key);
    NewestOfConcatenation(Without(dropped, key), Touched(kept, key));
  }

  lemma TouchedIsDistinct(order: seq<StatKey>, key: StatKey)
    requires Distinct(order)
    ensures Distinct(Touched(order, key)) && |Touched(order, key)| >= |order|
  {
    WithoutIsDistinct(order, key);
    WithoutMembers(order, key);
  }

  lemma NothingWithout(key: StatKey)
    ensures Without([], key) == []
  {
  }

  /** The keys of successful scans in order of last use, however many there are. */
  function Recency(keys: seq<StatKey>): seq<StatKey> {
    if keys == [] then [] else Touched(Recency(keys[..|keys| - 1]), keys[|keys| - 1])
  }

  /** The same with the bound applied after every scan, as the cache does. */
  function BoundedRecency(keys: seq<StatKey>): seq<StatKey> {
    if keys == [] then [] else Newest(Touched(BoundedRecency(keys[..|keys| - 1]), keys[|keys| - 1]))
  }

  /** The cache holds exactly the most recently used files: dropping old ones along the way loses nothing. */
  lemma {:induction false} BoundedIsNewest(keys: seq<StatKey>)
    ensures BoundedRecency(keys) == Newest(Recency(keys)) && Distinct(Recency(keys))
    ensures forall k: StatKey :: k in Recency(keys) <==> k in keys
  {
    if keys != [] {
      var before, last := keys[..|keys| - 1], keys[|keys| - 1];
      BoundedIsNewest(before);
      NewestCommutes(Recency(before), last);
      WithoutMembers(Recency(before), last);
      assert keys == before + [last];
    }
  }

  lemma TouchedMembers(order: seq<StatKey>, key: StatKey)
    ensures forall k <- Newest(Touched(order, key)) :: k == key || k in order
  {
    WithoutMembers(order, key);
    hide Without;
  }

  /** The scanner with its cache of at most 64 results. */
  class Scanner {
    const markers: Markers
    var results: map<StatKey, Capabilities>
    var order: seq<StatKey>
    /** What a file in a given state contains; equal states mean equal contents. */
    ghost const contentOf: StatKey -> Bytes
    /** The keys of all scans that gave a result. */
    ghost var scanned: seq<StatKey>

    ghost predicate Valid()
      reads this
    {
      && [] !in markers.All() && order == BoundedRecency(scanned) && results.Keys == (set k <- order)
      && forall k <- order :: results[k] == FreshScan(markers, contentOf(k))
    }

    constructor (ms: Markers, ghost contents: StatKey -> Bytes)
      requires [] !in ms.All()
      ensures Valid() && markers == ms && contentOf == contents && scanned == []
    {
      markers, contentOf := ms, contents;
      results, order, scanned := map[], [], [];
    }

    /** Moves a key to the end, and evicts the least recently used ones beyond the limit. */
    method Touch(key: StatKey)
      modifies this`order
      ensures order == Newest(Touched(old(order), key))
    {
      hide Without;
      order := Touched(order, key);
      ghost var touched := order;
      while |order| > CACHE_LIMIT
        invariant |order| <= |touched| && order == touched[|touched| - |order|..]
        invariant |order| < |touched| ==> |order| >= CACHE_LIMIT
      {
        order := order[1..];
      }
    }

    /** Keeps a result as the most recently used one. */
    method Remember(key: StatKey, result: Capabilities)
      requires Valid() && result == FreshScan(markers, contentOf(key))
      modifies this
      ensures Valid() && scanned == old(scanned) + [key]
    {
      TouchedMembers(order, key);
      hide Without, Newest, Touched, FreshScan;
      results := results[key := result];
      Touch(key);
      results := map k <- order :: results[k];
      scanned := scanned + [key];
      assert scanned[..|scanned| - 1] == old(scanned);
    }

    /** A result is exactly what a fresh scan of the file's content would give; a file that is missing, special,
        unreadable or changed while it was read gives none and leaves the cache as it was. */
    method ScanCliMarkers(before: Option<Status>, chunks: Option<seq<Bytes>>, after: Option<Status>)
      returns (r: Option<Capabilities>)
      requires Valid()
      requires before.Some? && chunks.Some? && after.Some? && before.value.key == after.value.key ==>
                 Flatten(chunks.value) == contentOf(before.value.key)
      modifies this
      ensures Valid() && |order| <= CACHE_LIMIT
      ensures r.Some? <==>
                && before.Some? && before.value.isRegular
                && (before.value.key in old(results)
                    || (chunks.Some? && after.Some? && after.value.key == before.value.key))
      ensures r.Some? ==> r.value == FreshScan(markers, contentOf(before.value.key))
      ensures scanned == if r.Some? then old(scanned) + [before.value.key] else old(scanned)
      ensures r.None? ==> results == old(results) && order == old(order)
    {
      BoundedLength(scanned);
      if before.None? || !before.value.isRegular {
        return None;
      }
      var key := before.value.key;
      if key in results {
        r := Some(results[key]);
        Remember(key, results[key]);
        BoundedLength(scanned);
        return;
      }
      if chunks.None? || after.None? {
        return None;
      }
      var found := ScanChunks(chunks.value, markers.All());
      if after.value.key != key {
        return None;
      }
      var result := Evaluate(markers, found);
      Remember(key, result);
      BoundedLength(scanned);
      r := Some(result);
    }
  }

  lemma BoundedLength(keys: seq<StatKey>)
    ensures |BoundedRecency(keys)| <= CACHE_LIMIT
  {
  }
}
