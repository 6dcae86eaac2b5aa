/** Completing a multipart upload and draining one replication entry, over one store. */
module Maintenance {
  import opened Prelude
  import opened Lww
  import opened SiteModel
  import opened Replication
  import opened Cluster
  import opened Durability
  import opened Store
  import opened Requests

  // ── multipart completion ──────────────────────────────────────────────────

  datatype Completion = NoSuchUpload | WrongKey | BadPartEtag | Completed(etag: string)

  lemma {:induction false} HasLeast(numbers: set<int>) returns (least: int)
    requires numbers != {}
    ensures least in numbers && forall n :: n in numbers ==> least <= n
    decreases numbers
  {
    assert (forall n :: n !in numbers) ==> numbers == {};
    var n :| n in numbers;
    var rest := numbers - {n};
    if rest == {} {
      least := n;
    } else {
      least := HasLeast(rest);
      if n < least {
        least := n;
      }
    }
    forall m | m in numbers ensures least <= m {
      assert m == n || m in rest;
    }
  }

  /** The part numbers in ascending order, each once. */
  method SortedNumbers(parts: map<int, Part>) returns (numbers: seq<int>)
    ensures InPartOrder(parts, numbers)
  {
    numbers := [];
    var rest := parts.Keys;
    while rest != {}
      invariant rest <= parts.Keys
      invariant forall i :: 0 <= i < |numbers| ==> numbers[i] in parts
      invariant forall i, j :: 0 <= i < j < |numbers| ==> numbers[i] < numbers[j]
      invariant forall i, n :: 0 <= i < |numbers| && n in rest ==> numbers[i] < n
      invariant forall n :: n in parts ==> n in rest || n in numbers
      decreases rest
    {
      ghost var least := HasLeast(rest);
      var n :| n in rest && forall m :: m in rest ==> n <= m;
      numbers := numbers + [n];
      rest := rest - {n};
    }
  }

  function Etags(parts: map<int, Part>, numbers: seq<int>): seq<string>
    requires forall i :: 0 <= i < |numbers| ==> numbers[i] in parts
  {
    seq(|numbers|, i requires 0 <= i < |numbers| => parts[numbers[i]].etag)
  }

  /** The site after a completion: one new row naming the parts' blocks in order, and no upload. */
  function CompletedSite(s: Site, upload: UploadKey, key: ObjectKey, numbers: seq<int>, etag: string, ts: int): Site
    requires InPartOrder(PartsOf(s.staging, upload), numbers)
  {
    var (blocks, size) := Assemble(PartsOf(s.staging, upload), numbers);
    SiteModel.InsertObject(s, key, blocks, size, etag, ts).(staging := DropUpload(s.staging, upload))
  }

  /** complete_multipart_upload; `combine` is the etag computation, which fails on a malformed part etag.
      Every refusal leaves the store as it was. */
  method CompleteMultipartUpload(store: Store, upload: UploadKey, key: string,
                                 combine: (seq<string>, nat) -> Option<string>, ts: int)
    returns (r: Completion, ghost numbers: seq<int>)
    modifies store
    ensures r == NoSuchUpload <==> upload !in old(store.uploads)
    ensures r == WrongKey <==> upload in old(store.uploads) && old(store.uploads)[upload] != key
    ensures !r.Completed? ==> store.View() == old(store.View())
    ensures InPartOrder(PartsOf(old(store.View().staging), upload), numbers) || r.NoSuchUpload? || r.WrongKey?
    ensures r.Completed? || r.BadPartEtag? ==>
              var parts := PartsOf(old(store.View().staging), upload);
              var tag := combine(Etags(parts, numbers), |Assemble(parts, numbers).0|);
              && (r.BadPartEtag? <==> tag.None?)
              && (r.Completed? ==> r.etag == tag.value
                                   && store.View() == CompletedSite(old(store.View()), upload,
                                                                    ObjectKey(upload.bucket, key),
                                                                    numbers, r.etag, ts))
    ensures r.Completed? ==>
              var parts, k := PartsOf(old(store.View().staging), upload), ObjectKey(upload.bucket, key);
              var blocks, size := Flatten(ListsInOrder(parts, numbers)), SizesAdded(parts, numbers);
              && (k !in old(store.objects) || old(store.objects)[k].updatedAt < ts ==>
                  IsLive(store.View().catalog, k)
                  && store.objects[k] == Versioned(Manifest(blocks, size, r.etag, false), ts))
              && store.log == old(store.log) + [Record(ts, ObjectPut(k, blocks, size, r.etag))]
              && upload !in store.uploads && upload !in store.parts
              && store.blobs == old(store.blobs) && store.locations == old(store.locations)
  {
    numbers := [];
    if upload !in store.uploads {
      return NoSuchUpload, [];
    }
    if store.uploads[upload] != key {
      return WrongKey, [];
    }
    var parts := if upload in store.parts then store.parts[upload] else map[];
    var order := SortedNumbers(parts);
    numbers := order;
    var blocks, size, etags := JoinParts(parts, order);
    AssembledInPartOrder(parts, order);
    AssembledSize(parts, order);
    var tag := combine(etags, |blocks|);
    if tag.None? {
      r := BadPartEtag;
      return;
    }
    store.InsertObject(ObjectKey(upload.bucket, key), blocks, size, tag.value, ts);
    store.DeleteMultipartUpload(upload);
    r := Completed(tag.value);
  }

  method JoinParts(parts: map<int, Part>, numbers: seq<int>) returns (blocks: seq<Hash>, size: int, etags: seq<string>)
    requires forall i :: 0 <= i < |numbers| ==> numbers[i] in parts
    ensures (blocks, size) == Assemble(parts, numbers)
    ensures etags == Etags(parts, numbers)
  {
    blocks, size, etags := [], 0, [];
    var i := 0;
    while i < |numbers|
      invariant 0 <= i <= |numbers|
      invariant (blocks, size) == Assemble(parts, numbers[..i])
      invariant etags == Etags(parts, numbers[..i])
    {
      var part := parts[numbers[i]];
      assert numbers[..i + 1][..i] == numbers[..i];
      blocks := blocks + part.blocks;
      size := size + part.size;
      etags := etags + [part.etag];
      i := i + 1;
    }
    assert numbers[..i] == numbers;
  }

  // ── the replication drainer ───────────────────────────────────────────────

  /** The site after the drainer has settled the entry of h; a fetched block that cannot be stored is put off
      like one that cannot be fetched. */
  function Drained(s: Site, me: SiteId, h: Hash, peers: seq<SiteId>, fetch: Fetch, promotes: bool, now: int): Site
    requires h in s.backlog.queue
  {
    var dequeued := s.(backlog := s.backlog.(queue := s.backlog.queue - {h}));
    var deferred := s.(backlog := s.backlog.(queue := Deferred(s.backlog.queue, h, now)));
    match PlanReplication(Holders(s.index.locations, h), me, peers)
    case Drop => dequeued
    case Defer => deferred
    case FetchFrom(candidates) =>
      var data := FirstAnswer(candidates, h, fetch);
      if data.None? || !promotes then deferred else KeepSite(dequeued, me, h, data.value, LOCAL_FID, now)
  }

  /** What a settled entry comes to, on the tables alone: a block held already leaves the queue; one that a known
      holder among the peers supplies, and that can be stored, is stored with the bytes supplied, recorded, announced
      and off the queue; one with a holder elsewhere that cannot be had now is tried once more later. */
  ghost predicate DrainOutcome(s: Site, t: Site, me: SiteId, h: Hash, peers: seq<SiteId>, fetch: Fetch,
                               promotes: bool, now: int)
    requires h in s.backlog.queue
  {
    var holders, queue := Holders(s.index.locations, h), s.backlog.queue;
    && (forall g :: g != h ==> (g in t.backlog.queue <==> g in queue))
    && (forall g :: g != h && g in queue && g in t.backlog.queue ==> t.backlog.queue[g] == queue[g])
    && (if me in holders then h !in t.backlog.queue && t.index == s.index && t.journal == s.journal
        else if Answered(holders, h, peers, fetch) && promotes then
          && h in t.index.blobs && AnAnswer(holders, h, peers, fetch, t.index.blobs[h])
          && Holds(t.index.locations, me, h) && h !in t.backlog.queue
          && t.journal.log == s.journal.log + [Record(now, BlockAnnounce(h, me, LOCAL_FID, |t.index.blobs[h]|))]
        else if holders != map[] then
          && t.index == s.index && t.journal == s.journal && h in t.backlog.queue
          && t.backlog.queue[h].attempts == queue[h].attempts + 1
          && t.backlog.queue[h].nextAttemptAt == now + BackoffMs(queue[h].attempts)
        else h !in t.backlog.queue && t.index == s.index && t.journal == s.journal)
  }

  lemma DrainedOutcome(s: Site, me: SiteId, h: Hash, peers: seq<SiteId>, fetch: Fetch, promotes: bool, now: int)
    requires h in s.backlog.queue
    ensures DrainOutcome(s, Drained(s, me, h, peers, fetch, promotes, now), me, h, peers, fetch, promotes, now)
  {
    var holders := Holders(s.index.locations, h);
    CandidatesAnswer(holders, h, peers, fetch);
    if Candidates(holders, peers) == [] {
      assert FirstAnswer(Candidates(holders, peers), h, fetch).None?;
    }
  }

  method DrainEntry(store: Store, h: Hash, peers: seq<SiteId>, fetch: Fetch, promotes: bool, now: int)
    requires h in store.queue
    modifies store
    ensures store.View() == Drained(old(store.View()), store.me, h, peers, fetch, promotes, now)
    ensures DrainOutcome(old(store.View()), store.View(), store.me, h, peers, fetch, promotes, now)
  {
    DrainedOutcome(store.View(), store.me, h, peers, fetch, promotes, now);
    var plan := PlanReplication(Holders(store.locations, h), store.me, peers);
    match plan
    case Drop => store.DequeueReplication(h);
    case Defer => store.DeferReplication(h, now);
    case FetchFrom(candidates) =>
      var fetched: Option<Bytes> := None;
      var i := 0;
      while i < |candidates| && fetched.None?
        invariant 0 <= i <= |candidates|
        invariant if fetched.None? then FirstAnswer(candidates[i..], h, fetch) == FirstAnswer(candidates, h, fetch)
                  else fetched == FirstAnswer(candidates, h, fetch)
      {
        assert candidates[i..][1..] == candidates[i + 1..];
        fetched := fetch(candidates[i], h);
        i := i + 1;
      }
      if fetched.Some? && promotes {
        store.KeepBlock(h, fetched.value, now);
        store.DequeueReplication(h);
      } else {
        store.DeferReplication(h, now);
      }
  }

  // ── copying ───────────────────────────────────────────────────────────────

  /** copy_object: the target gets the source's blocks, size and etag, and no block moves; false for no such key. */
  method CopyObject(store: Store, source: ObjectKey, target: ObjectKey, ts: int) returns (ok: bool)
    modifies store
    ensures ok <==> IsLive(old(store.View().catalog), source)
    ensures !ok ==> store.View() == old(store.View())
    ensures ok ==>
              var m := old(store.objects)[source].value;
              && store.View() == SiteModel.InsertObject(old(store.View()), target, m.blocks, m.size, m.etag, ts)
              && (target !in old(store.objects) || old(store.objects)[target].updatedAt < ts ==>
                  IsLive(store.View().catalog, target) && store.objects[target].value == m)
              && store.log == old(store.log) + [Record(ts, ObjectPut(target, m.blocks, m.size, m.etag))]
              && store.blobs == old(store.blobs)
  {
    if source !in store.objects || store.objects[source].value.deleted {
      return false;
    }
    var m := store.objects[source].value;
    store.InsertObject(target, m.blocks, m.size, m.etag, ts);
    ok := true;
  }
}
