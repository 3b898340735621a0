/**
 The drift scanner (internal/drift): how far staging is ahead of prod, per app and
 component, kept as rows of a table that every scan brings up to date.
 */
module Drift {
  import opened Claims
  import opened Text
  import opened Wrappers

  /** A row without its key. */
  datatype Snapshot = Snapshot(staging: string, prod: string, ahead: int, at: int)

  datatype Key = Key(slug: string, component: Component)

  type Rows = map<Key, Snapshot>

  datatype App = App(slug: string, url: string)

  /** The reply for one tag file; a missing file is not an error. */
  datatype TagReply = File(tags: Sides<string>) | Missing | Unreadable

  /** The reply of the compare API; `AheadBy` may lack its number. */
  datatype CompareReply = AheadBy(n: Option<int>) | Unknown | Broken

  /** What becomes of a store call; an error may come after the effect. */
  datatype StoreReply = Done | Refused | DoneButError

  datatype Address = Address(owner: string, repo: string)

  /** A question to the compare API: how far is `head` ahead of `base`? */
  datatype Query = Query(owner: string, repo: string, base: string, head: string)

  /** Everything a scan meets; replies are given per position in the registry's list. */
  datatype Scan = Scan(
    apps: seq<App>,
    address: string -> Option<Address>,
    tagFile: (nat, Stage) -> TagReply,
    configured: bool,
    compare: (nat, Component, Query) -> CompareReply,
    store: (nat, Component) -> StoreReply,
    now: int)

  // ------------------------------------------------------------------- commits ahead

  /** `normalizeRef`. */
  function NormalizeRef(tag: string): string {
    if HasPrefix(tag, "sha-") then tag[4..] else tag
  }

  /** One prefix is peeled off, and nothing else is changed. */
  lemma NormalizeRefExactly(tag: string, rest: string)
    ensures NormalizeRef("sha-" + rest) == rest
    ensures (forall r: string :: tag != "sha-" + r) ==> NormalizeRef(tag) == tag
  {
    assert ("sha-" + rest)[4..] == rest;
    if HasPrefix(tag, "sha-") {
      assert tag == "sha-" + tag[4..];
    }
  }

  /** `CommitsAhead`; `None` is an error. */
  function CommitsAhead(configured: bool, a: Address, prod: string, staging: string, compare: Query -> CompareReply)
    : Option<int>
  {
    if !configured then None
    else if a.owner == "" || a.repo == "" || prod == "" || staging == "" then Some(0)
    else if NormalizeRef(prod) == NormalizeRef(staging) then Some(0)
    else
      match compare(Query(a.owner, a.repo, NormalizeRef(prod), NormalizeRef(staging)))
      case Unknown => Some(0)
      case Broken => None
      case AheadBy(n) => Some(if n.Some? then n.value else 0)
  }

  /** An error leaves the count at zero. */
  function AheadOrZero(ahead: Option<int>): int { if ahead.Some? then ahead.value else 0 }

  // -------------------------------------------------------------------- one app's tags

  /** The tags of both stages; `None` when a file cannot be read. */
  function StageTags(scan: Scan, i: nat): Option<Stages<Sides<string>>> {
    if scan.tagFile(i, Staging).Unreadable? || scan.tagFile(i, Prod).Unreadable? then None
    else Some(Stages(TagsOf(scan.tagFile(i, Staging)), TagsOf(scan.tagFile(i, Prod))))
  }

  function TagsOf(reply: TagReply): Sides<string> {
    if reply.File? then reply.tags else Sides("", "")
  }

  /** Whether a scan can say anything about the app at this position. */
  predicate Readable(scan: Scan, i: nat)
    requires i < |scan.apps|
  {
    scan.address(scan.apps[i].url).Some? && StageTags(scan, i).Some?
  }

  function CompareAt(scan: Scan, i: nat, c: Component): Query -> CompareReply {
    (q: Query) => scan.compare(i, c, q)
  }

  function Collect(scan: Scan, i: nat, c: Component): Option<Snapshot>
    requires i < |scan.apps| && Readable(scan, i)
  {
    var staging, prod := StageTags(scan, i).value.staging.Get(c), StageTags(scan, i).value.prod.Get(c);
    if staging == "" && prod == "" then None
    else
      var ahead := CommitsAhead(scan.configured, scan.address(scan.apps[i].url).value, prod, staging,
        CompareAt(scan, i, c));
      Some(Snapshot(staging, prod, AheadOrZero(ahead), scan.now))
  }

  // ------------------------------------------------------------------------- the table

  function Upserted(rows: Rows, k: Key, s: Snapshot, reply: StoreReply): Rows {
    if reply.Refused? then rows else rows[k := s]
  }

  function Deleted(rows: Rows, k: Key, reply: StoreReply): Rows {
    if reply.Refused? then rows else rows - {k}
  }

  class Store {
    var rows: Rows

    constructor ()
      ensures rows == map[]
    {
      rows := map[];
    }

    method Upsert(k: Key, s: Snapshot, reply: StoreReply) returns (ok: bool)
      modifies this
      ensures rows == Upserted(old(rows), k, s, reply) && (ok <==> reply.Done?)
    {
      if !reply.Refused? {
        rows := rows[k := s];
      }
      ok := reply.Done?;
    }

    method Delete(k: Key, reply: StoreReply) returns (ok: bool)
      modifies this
      ensures rows == Deleted(old(rows), k, reply) && (ok <==> reply.Done?)
    {
      if !reply.Refused? {
        rows := rows - {k};
      }
      ok := reply.Done?;
    }

    method Get(k: Key) returns (s: Option<Snapshot>)
      ensures s.Some? <==> k in rows
      ensures s.Some? ==> s.value == rows[k]
    {
      s := if k in rows then Some(rows[k]) else None;
    }
  }

  // -------------------------------------------------------------------------- one scan

  datatype Progress = Progress(rows: Rows, processed: nat)

  function ComponentScanned(p: Progress, scan: Scan, i: nat, c: Component): Progress
    requires i < |scan.apps| && Readable(scan, i)
  {
    var k, reply := Key(scan.apps[i].slug, c), scan.store(i, c);
    match Collect(scan, i, c)
    case None => p.(rows := Deleted(p.rows, k, reply))
    case Some(s) => Progress(Upserted(p.rows, k, s, reply), if reply.Done? then p.processed + 1 else p.processed)
  }

  function AppScanned(p: Progress, scan: Scan, i: nat): Progress
    requires i < |scan.apps|
  {
    if Readable(scan, i) then ComponentScanned(ComponentScanned(p, scan, i, Backend), scan, i, Frontend) else p
  }

  /** The first `n` apps. */
  function Scanned(rows: Rows, scan: Scan, n: nat): Progress
    requires n <= |scan.apps|
  {
    if n == 0 then Progress(rows, 0) else AppScanned(Scanned(rows, scan, n - 1), scan, n - 1)
  }

  method ReadStageTags(scan: Scan, i: nat) returns (tags: Option<Stages<Sides<string>>>)
    ensures tags == StageTags(scan, i)
  {
    var out := Stages(Sides("", ""), Sides("", ""));
    var staging := scan.tagFile(i, Staging);
    if staging.Unreadable? {
      return None;
    }
    if staging.File? {
      out := out.(staging := staging.tags);
    }
    var prod := scan.tagFile(i, Prod);
    if prod.Unreadable? {
      return None;
    }
    if prod.File? {
      out := out.(prod := prod.tags);
    }
    return Some(out);
  }

  /** `RunOnce` on the apps of a registry that could be read; returns the number of rows written. */
  method RunOnce(store: Store, scan: Scan) returns (processed: nat)
    modifies store
    ensures Progress(store.rows, processed) == Scanned(old(store.rows), scan, |scan.apps|)
  {
    processed := 0;
    for i := 0 to |scan.apps|
      invariant Progress(store.rows, processed) == Scanned(old(store.rows), scan, i)
    {
      var app := scan.apps[i];
      var address := scan.address(app.url);
      if address.None? {
        continue;
      }
      var tags := ReadStageTags(scan, i);
      if tags.None? {
        continue;
      }
      var blocks := [Backend, Frontend];
      ghost var before := Progress(store.rows, processed);
      for j := 0 to |blocks|
        invariant j == 0 ==> Progress(store.rows, processed) == before
        invariant j == 1 ==> Progress(store.rows, processed) == ComponentScanned(before, scan, i, Backend)
        invariant j == 2 ==> Progress(store.rows, processed) == AppScanned(before, scan, i)
      {
        var c := blocks[j];
        var snap := Collect(scan, i, c);
        if snap.None? {
          var _ := store.Delete(Key(app.slug, c), scan.store(i, c));
          continue;
        }
        var ok := store.Upsert(Key(app.slug, c), snap.value, scan.store(i, c));
        if !ok {
          continue;
        }
        processed := processed + 1;
      }
    }
  }

  // ----------------------------------------------------- what a scan does to the table

  predicate UniqueSlugs(apps: seq<App>) {
    forall i, j :: 0 <= i < j < |apps| ==> apps[i].slug != apps[j].slug
  }

  ghost predicate StoreWorks(scan: Scan) {
    forall i: nat, c: Component :: scan.store(i, c) == Done
  }

  function Get(rows: Rows, k: Key): Option<Snapshot> { if k in rows then Some(rows[k]) else None }

  lemma AppScannedElsewhere(p: Progress, scan: Scan, i: nat, k: Key)
    requires i < |scan.apps| && k.slug != scan.apps[i].slug
    ensures Get(AppScanned(p, scan, i).rows, k) == Get(p.rows, k)
  {
  }

  /** Rows of slugs that the scanned apps do not have are left alone, whatever fails. */
  lemma {:induction false} OthersKept(rows: Rows, scan: Scan, n: nat, k: Key)
    requires n <= |scan.apps| && forall i :: 0 <= i < n ==> scan.apps[i].slug != k.slug
    ensures Get(Scanned(rows, scan, n).rows, k) == Get(rows, k)
  {
    if n > 0 {
      OthersKept(rows, scan, n - 1, k);
      AppScannedElsewhere(Scanned(rows, scan, n - 1), scan, n - 1, k);
    }
  }

  lemma AppScannedHere(p: Progress, scan: Scan, i: nat, c: Component)
    requires i < |scan.apps| && StoreWorks(scan)
    ensures Get(AppScanned(p, scan, i).rows, Key(scan.apps[i].slug, c)) ==
            if Readable(scan, i) then Collect(scan, i, c) else Get(p.rows, Key(scan.apps[i].slug, c))
  {
  }

  lemma {:induction false} LaterKept(rows: Rows, scan: Scan, i: nat, n: nat, k: Key)
    requires i < n <= |scan.apps| && UniqueSlugs(scan.apps) && k.slug == scan.apps[i].slug
    ensures Get(Scanned(rows, scan, n).rows, k) == Get(Scanned(rows, scan, i + 1).rows, k)
    decreases n
  {
    if i + 1 < n {
      LaterKept(rows, scan, i, n - 1, k);
      AppScannedElsewhere(Scanned(rows, scan, n - 1), scan, n - 1, k);
    }
  }

  /**
   What a scan leaves for a registered app when the store works: an app that cannot be
   read keeps its row; any other has exactly the row its tags call for.
   */
  lemma ScanExactly(rows: Rows, scan: Scan, i: nat, c: Component)
    requires i < |scan.apps| && UniqueSlugs(scan.apps) && StoreWorks(scan)
    ensures var k := Key(scan.apps[i].slug, c);
            Get(Scanned(rows, scan, |scan.apps|).rows, k) ==
            if Readable(scan, i) then Collect(scan, i, c) else Get(rows, k)
  {
    var k := Key(scan.apps[i].slug, c);
    LaterKept(rows, scan, i, |scan.apps|, k);
    AppScannedHere(Scanned(rows, scan, i), scan, i, c);
    OthersKept(rows, scan, i, k);
  }

  /** An unreadable app keeps its rows even when the store fails. */
  lemma UnreadableKept(rows: Rows, scan: Scan, i: nat, c: Component)
    requires i < |scan.apps| && UniqueSlugs(scan.apps) && !Readable(scan, i)
    ensures var k := Key(scan.apps[i].slug, c);
            Get(Scanned(rows, scan, |scan.apps|).rows, k) == Get(rows, k)
  {
    var k := Key(scan.apps[i].slug, c);
    LaterKept(rows, scan, i, |scan.apps|, k);
    OthersKept(rows, scan, i, k);
  }

  /** A readable app has a row for a component exactly when some tag is set, and the row carries the tags. */
  lemma RowExactly(rows: Rows, scan: Scan, i: nat, c: Component)
    requires i < |scan.apps| && UniqueSlugs(scan.apps) && StoreWorks(scan) && Readable(scan, i)
    ensures var k, tags := Key(scan.apps[i].slug, c), StageTags(scan, i).value;
            var after := Scanned(rows, scan, |scan.apps|).rows;
            && (k in after <==> tags.staging.Get(c) != "" || tags.prod.Get(c) != "")
            && (k in after ==> after[k].staging == tags.staging.Get(c) && after[k].prod == tags.prod.Get(c))
  {
    ScanExactly(rows, scan, i, c);
  }

  /** The tag of a component in a reply; a missing file has none. */
  function TagIn(reply: TagReply, c: Component): string {
    match reply
    case File(tags) => if c == Backend then tags.backend else tags.frontend
    case _ => ""
  }

  /** What a scan makes of an app, by the replies it got. */
  lemma ReadableExactly(scan: Scan, i: nat)
    requires i < |scan.apps|
    ensures Readable(scan, i) <==>
            && scan.address(scan.apps[i].url) != None
            && scan.tagFile(i, Staging) != Unreadable && scan.tagFile(i, Prod) != Unreadable
  {
  }

  /**
   The row of a readable app carries each stage's own tag and the time of the scan, and
   the number the compare API gave for prod as base and staging as head; without two
   different tags, or without such a number, it carries zero.
   */
  lemma RowSays(rows: Rows, scan: Scan, i: nat, c: Component)
    requires i < |scan.apps| && UniqueSlugs(scan.apps) && StoreWorks(scan) && Readable(scan, i)
    ensures var k, after := Key(scan.apps[i].slug, c), Scanned(rows, scan, |scan.apps|).rows;
            var staging, prod := TagIn(scan.tagFile(i, Staging), c), TagIn(scan.tagFile(i, Prod), c);
            var a := scan.address(scan.apps[i].url).value;
            var q := Query(a.owner, a.repo, NormalizeRef(prod), NormalizeRef(staging));
            var asked := scan.configured && a.owner != "" && a.repo != "" && prod != "" && staging != "" && q.base != q.head;
            && (k in after <==> staging != "" || prod != "")
            && (k in after ==>
                  && after[k].staging == staging && after[k].prod == prod && after[k].at == scan.now
                  && (forall n :: asked && scan.compare(i, c, q) == AheadBy(Some(n)) ==> after[k].ahead == n)
                  && (!asked || !scan.compare(i, c, q).AheadBy? || scan.compare(i, c, q).n == None ==> after[k].ahead == 0))
  {
    ScanExactly(rows, scan, i, c);
  }

  // --------------------------------------------------------- what no scan ever stores

  /** A row says something: some tag is set, and equal or missing tags mean no drift. */
  predicate Sensible(s: Snapshot) {
    && (s.staging != "" || s.prod != "")
    && (s.staging == "" || s.prod == "" || NormalizeRef(s.staging) == NormalizeRef(s.prod) ==> s.ahead == 0)
  }

  predicate AllSensible(rows: Rows) { forall k :: k in rows ==> Sensible(rows[k]) }

  lemma CollectSensible(scan: Scan, i: nat, c: Component)
    requires i < |scan.apps| && Readable(scan, i) && Collect(scan, i, c).Some?
    ensures Sensible(Collect(scan, i, c).value)
  {
  }

  lemma ComponentKeepsSensible(p: Progress, scan: Scan, i: nat, c: Component)
    requires i < |scan.apps| && Readable(scan, i) && AllSensible(p.rows)
    ensures AllSensible(ComponentScanned(p, scan, i, c).rows)
  {
    if Collect(scan, i, c).Some? {
      CollectSensible(scan, i, c);
    }
  }

  lemma {:induction false} ScanKeepsSensible(rows: Rows, scan: Scan, n: nat)
    requires n <= |scan.apps| && AllSensible(rows)
    ensures AllSensible(Scanned(rows, scan, n).rows)
  {
    if n > 0 {
      ScanKeepsSensible(rows, scan, n - 1);
      var p := Scanned(rows, scan, n - 1);
      if Readable(scan, n - 1) {
        ComponentKeepsSensible(p, scan, n - 1, Backend);
        ComponentKeepsSensible(ComponentScanned(p, scan, n - 1, Backend), scan, n - 1, Frontend);
      }
    }
  }

  /** The table after a number of scans, from an empty table. */
  function After(scans: seq<Scan>): Rows {
    if scans == [] then map[]
    else
      var last := scans[|scans| - 1];
      Scanned(After(scans[..|scans| - 1]), last, |last.apps|).rows
  }

  /** Over any sequence of scans, with any failures, every row stays sensible. */
  lemma {:induction false} AlwaysSensible(scans: seq<Scan>)
    ensures AllSensible(After(scans))
  {
    if scans != [] {
      AlwaysSensible(scans[..|scans| - 1]);
      var last := scans[|scans| - 1];
      ScanKeepsSensible(After(scans[..|scans| - 1]), last, |last.apps|);
    }
  }

  /** The number of components a scan has something to say about. */
  function Tracked(scan: Scan, n: nat): nat
    requires n <= |scan.apps|
  {
    if n == 0 then 0
    else
      Tracked(scan, n - 1) +
      if !Readable(scan, n - 1) then 0
      else (if Collect(scan, n - 1, Backend).Some? then 1 else 0) + (if Collect(scan, n - 1, Frontend).Some? then 1 else 0)
  }

  /** The count is never more than the rows there are to write, and exactly that when the store works. */
  lemma {:induction false} CountExactly(rows: Rows, scan: Scan, n: nat)
    requires n <= |scan.apps|
    ensures Scanned(rows, scan, n).processed <= Tracked(scan, n)
    ensures StoreWorks(scan) ==> Scanned(rows, scan, n).processed == Tracked(scan, n)
  {
    if n > 0 {
      CountExactly(rows, scan, n - 1);
    }
  }
}
