/** `GET` and `POST /api/assets` (app/api/assets/route.js): list the assets of one
    floor or of all floors, newest first, each with its five most recent log entries;
    create an asset row together with its CREATE log entry. */
module AssetsRoute {
  import opened Wrappers
  import opened AssetTable
  import opened Ordering

  /** The request body; `lokasiLantai` and `jumlah` already parsed to integers (None
      when absent). A present value that `parseInt` cannot read is not represented. */
  datatype CreateRequest = CreateRequest(
    nama: Option<string>,
    kodeAset: Option<string>,
    lokasiLantai: Option<int>,
    kondisi: Option<string>,
    status: Option<string>,
    jumlah: Option<int>)

  datatype CreateError = MissingField | QuantityBelowOne | DuplicateCodeOnFloor

  /** The created row as returned to the client. */
  datatype Row = Row(id: nat, asset: Asset)

  /** `parseInt(jumlah) || 1`: a missing, unparseable or zero quantity becomes 1. */
  function DefaultQuantity(jumlah: Option<int>): (qty: int)
    ensures qty != 0
    ensures jumlah.Some? && jumlah.value != 0 ==> qty == jumlah.value
    ensures qty != 1 ==> jumlah == Some(qty)
  {
    if jumlah.Some? && jumlah.value != 0 then jumlah.value else 1
  }

  predicate AllFieldsGiven(req: CreateRequest) {
    GivenText(req.nama) && GivenText(req.kodeAset) && GivenInt(req.lokasiLantai)
    && GivenText(req.kondisi) && GivenText(req.status)
  }

  /** The route: field check, quantity default and check, per-floor duplicate check,
      then the insert of the row and of its log entry. */
  function CreateOp(t: Table, req: CreateRequest, now: int): (res: (Result<Row, CreateError>, Table))
    requires ValidTable(t)
    ensures res.0.Err? ==> res.1 == t
    ensures res.0.Ok? ==> res.0.value.id == t.nextId && res.1.nextId == t.nextId + 1
                          && res.1.assets.Keys == t.assets.Keys + {t.nextId}
                          && |res.1.logs| == |t.logs| + 1
  {
    if !AllFieldsGiven(req) then (Err(MissingField), t)
    else
      var qty := DefaultQuantity(req.jumlah);
      if qty < 1 then (Err(QuantityBelowOne), t)
      else if FindOnFloor(t, req.kodeAset.value, req.lokasiLantai.value).Some? then
        (Err(DuplicateCodeOnFloor), t)
      else
        var id := t.nextId;
        var asset := Asset(req.nama.value, req.kodeAset.value, req.lokasiLantai.value,
                           req.kondisi.value, req.status.value, qty, now);
        (Ok(Row(id, asset)),
         Table(t.assets[id := asset], id + 1, t.logs + [ActivityLog(id, Created, None, None, qty, now)]))
  }

  /** Each rejection, in the order the route checks them; a rejection adds no row and
      no log entry. The duplicate check is scoped to (code, floor): the same code on
      another floor does not reject. */
  lemma CreateRejections(t: Table, req: CreateRequest, now: int)
    requires ValidTable(t)
    ensures var (r, t') := CreateOp(t, req, now);
      && (r.Err? ==> t' == t)
      && (r == Err(MissingField) <==> !AllFieldsGiven(req))
      && (r == Err(QuantityBelowOne) <==>
            AllFieldsGiven(req) && req.jumlah.Some? && req.jumlah.value < 0)
      && (r == Err(DuplicateCodeOnFloor) <==>
            && AllFieldsGiven(req) && !(req.jumlah.Some? && req.jumlah.value < 0)
            && exists k :: k in t.assets && OnFloor(t.assets[k], req.kodeAset.value, req.lokasiLantai.value))
  {
  }

  /** A successful create adds exactly one row, at the next id, with the given fields
      and the defaulted quantity, leaves every existing row as it was, and appends one
      CREATE entry for the new id with the same quantity. */
  lemma CreateAddsOneRow(t: Table, req: CreateRequest, now: int)
    requires ValidTable(t)
    requires CreateOp(t, req, now).0.Ok?
    ensures var (r, t') := CreateOp(t, req, now);
      var qty := DefaultQuantity(req.jumlah);
      && r.value.id == t.nextId
      && r.value.id !in t.assets
      && t'.assets.Keys == t.assets.Keys + {r.value.id}
      && (forall k :: k in t.assets ==> t'.assets[k] == t.assets[k])
      && t'.assets[r.value.id] == r.value.asset
      && r.value.asset == Asset(req.nama.value, req.kodeAset.value, req.lokasiLantai.value,
                                req.kondisi.value, req.status.value, qty, now)
      && qty >= 1
      && t'.logs == t.logs + [ActivityLog(r.value.id, Created, None, None, qty, now)]
  {
  }

  /** A code already used on other floors is accepted on a floor where it is absent. */
  lemma CreateSameCodeOtherFloor(t: Table, req: CreateRequest, now: int)
    requires ValidTable(t)
    requires AllFieldsGiven(req) && DefaultQuantity(req.jumlah) >= 1
    requires forall k :: k in t.assets && t.assets[k].kodeAset == req.kodeAset.value ==>
               t.assets[k].lokasiLantai != req.lokasiLantai.value
    ensures CreateOp(t, req, now).0.Ok?
  {
  }

  /** Create keeps the table invariant, in particular (code, floor) uniqueness. */
  lemma CreatePreservesValid(t: Table, req: CreateRequest, now: int)
    requires ValidTable(t)
    ensures ValidTable(CreateOp(t, req, now).1)
  {
  }

  /** Create adds the new row's quantity to its code's total and changes no other code. */
  lemma CreateAddsQuantity(t: Table, req: CreateRequest, now: int, code: string)
    requires ValidTable(t)
    ensures var (r, t') := CreateOp(t, req, now);
      QuantityOf(t', code) ==
        QuantityOf(t, code) + (if r.Ok? && r.value.asset.kodeAset == code then r.value.asset.jumlah else 0)
  {
    var (r, t') := CreateOp(t, req, now);
    if r.Ok? {
      CodeTotalBelow(t.assets, t'.assets, code, t.nextId);
    }
  }

  /** Worked example: with X1 on floor 1, creating X1 on floor 1 again is rejected and
      changes nothing, while creating X1 on floor 2 succeeds at the next id. */
  lemma CreateDuplicateExample()
    ensures var t := Table(map[1 := Asset("Kursi", "X1", 1, "Baik", "Aktif", 5, 0)], 2,
                           [ActivityLog(1, Created, None, None, 5, 0)]);
      var same := CreateRequest(Some("Kursi"), Some("X1"), Some(1), Some("Baik"), Some("Aktif"), None);
      var other := same.(lokasiLantai := Some(2));
      && CreateOp(t, same, 7) == (Err(DuplicateCodeOnFloor), t)
      && CreateOp(t, other, 7).0 == Ok(Row(2, Asset("Kursi", "X1", 2, "Baik", "Aktif", 1, 7)))
  {
  }

  // ---------------------------------------------------------------------------
  // GET: the listing

  /** A listed asset with its most recent log entries. */
  datatype Listed = Listed(id: nat, asset: Asset, logs: seq<ActivityLog>)

  /** The `where` of the listing: a floor filter, or none. */
  predicate InFilter(lantai: Option<int>, a: Asset) {
    lantai.None? || a.lokasiLantai == lantai.value
  }

  /** The log entries of one asset, in log order. */
  function LogsOf(logs: seq<ActivityLog>, id: nat): (r: seq<ActivityLog>)
    ensures forall l :: l in r <==> l in logs && l.assetId == id
    ensures forall l :: multiset(r)[l] == if l.assetId == id then multiset(logs)[l] else 0
    ensures multiset(r) <= multiset(logs)
  {
    if logs == [] then []
    else
      var n := |logs| - 1;
      assert logs == logs[..n] + [logs[n]];
      assert multiset(logs) == multiset(logs[..n]) + multiset{logs[n]};
      LogsOf(logs[..n], id) + (if logs[n].assetId == id then [logs[n]] else [])
  }

  const RecentLogLimit: nat := 5

  function TimestampKey(l: ActivityLog): int {
    l.timestamp
  }

  /** `include: { logs: { orderBy: { timestamp: 'desc' }, take: 5 } }`. */
  function RecentLogs(logs: seq<ActivityLog>, id: nat): (r: seq<ActivityLog>)
    ensures |r| <= RecentLogLimit
    ensures multiset(r) <= multiset(LogsOf(logs, id))
  {
    Take(SortDesc(LogsOf(logs, id), TimestampKey), RecentLogLimit)
  }

  /** The attached logs are the smaller of five and the asset's entry count, as
      distinct occurrences of the asset's own entries; with five or fewer entries, all
      of them are attached. */
  lemma RecentLogsAreOwn(logs: seq<ActivityLog>, id: nat)
    ensures var r := RecentLogs(logs, id);
      && |r| == (if |LogsOf(logs, id)| < RecentLogLimit then |LogsOf(logs, id)| else RecentLogLimit)
      && multiset(r) <= multiset(LogsOf(logs, id))
      && (|LogsOf(logs, id)| <= RecentLogLimit ==> multiset(r) == multiset(LogsOf(logs, id)))
      && (forall l :: l in r ==> l in logs && l.assetId == id)
  {
    TopOfSortedCounts(LogsOf(logs, id), TimestampKey, RecentLogLimit);
  }

  /** The attached logs are newest first, and every entry of the asset left out
      (counting repeated entries one by one) is no newer than any entry kept. */
  lemma RecentLogsAreNewest(logs: seq<ActivityLog>, id: nat)
    ensures var r := RecentLogs(logs, id);
      && (forall i, j :: 0 <= i < j < |r| ==> r[i].timestamp >= r[j].timestamp)
      && (forall l: ActivityLog :: l.assetId == id && multiset(r)[l] < multiset(logs)[l] ==>
            forall i :: 0 <= i < |r| ==> r[i].timestamp >= l.timestamp)
  {
    TopOfSortedOrder(LogsOf(logs, id), TimestampKey, RecentLogLimit);
  }

  /** The `where` of the listing: the ids below `n` whose rows pass the floor filter,
      in id order. */
  function MatchingIds(t: Table, lantai: Option<int>, n: nat): (r: seq<nat>)
    ensures forall k :: k in r <==> k < n && k in t.assets && InFilter(lantai, t.assets[k])
    ensures forall i, j :: 0 <= i < j < |r| ==> r[i] < r[j]
  {
    if n == 0 then []
    else
      var prefix := MatchingIds(t, lantai, n - 1);
      if n - 1 in t.assets && InFilter(lantai, t.assets[n - 1]) then
        assert forall i :: 0 <= i < |prefix| ==> prefix[i] < n - 1 by {
          forall i | 0 <= i < |prefix|
            ensures prefix[i] < n - 1
          {
            assert prefix[i] in prefix;
          }
        }
        prefix + [n - 1]
      else prefix
  }

  /** The `include` of the listing: each id's row with its recent log entries. An
      entry is produced exactly for the given ids, carrying that id's stored row and
      recent logs; distinct ids give distinct entries. */
  function WithLogs(t: Table, ids: seq<nat>): (r: seq<Listed>)
    requires forall k :: k in ids ==> k in t.assets
    ensures |r| == |ids|
    ensures forall e :: e in r <==> e.id in ids && e == Listed(e.id, t.assets[e.id], RecentLogs(t.logs, e.id))
    ensures (forall i, j :: 0 <= i < j < |ids| ==> ids[i] != ids[j]) ==> Distinct(r)
  {
    var r := seq(|ids|, i requires 0 <= i < |ids| => Listed(ids[i], t.assets[ids[i]], RecentLogs(t.logs, ids[i])));
    assert forall e :: e in r <==> e.id in ids && e == Listed(e.id, t.assets[e.id], RecentLogs(t.logs, e.id)) by {
      forall e
        ensures e in r <==> e.id in ids && e == Listed(e.id, t.assets[e.id], RecentLogs(t.logs, e.id))
      {
        if e.id in ids && e == Listed(e.id, t.assets[e.id], RecentLogs(t.logs, e.id)) {
          var i :| 0 <= i < |ids| && ids[i] == e.id;
          assert r[i] == e;
        }
      }
    }
    r
  }

  function CreatedAtKey(e: Listed): int {
    e.asset.createdAt
  }

  /** `findMany({ where, orderBy: { created_at: 'desc' }, include: logs })`. */
  function ListAssets(t: Table, lantai: Option<int>): (r: seq<Listed>)
    ensures multiset(r) == multiset(WithLogs(t, MatchingIds(t, lantai, t.nextId)))
    ensures SortedDesc(r, CreatedAtKey)
  {
    SortDesc(WithLogs(t, MatchingIds(t, lantai, t.nextId)), CreatedAtKey)
  }

  /** Before ordering, the listing holds exactly the matching rows, each once, with
      its recent logs. */
  lemma UnorderedListingExact(t: Table, lantai: Option<int>)
    requires ValidTable(t)
    ensures var rows := WithLogs(t, MatchingIds(t, lantai, t.nextId));
      && (forall e :: e in rows <==>
            e.id in t.assets && InFilter(lantai, t.assets[e.id])
            && e == Listed(e.id, t.assets[e.id], RecentLogs(t.logs, e.id)))
      && Distinct(rows)
  {
    var ids := MatchingIds(t, lantai, t.nextId);
    var rows := WithLogs(t, ids);
    assert Distinct(rows);
  }

  /** Ordering by `created_at` neither adds nor drops a row, and lists none twice. */
  lemma ListAssetsPermutes(t: Table, lantai: Option<int>)
    requires ValidTable(t)
    ensures var rows := WithLogs(t, MatchingIds(t, lantai, t.nextId));
      && (forall e :: e in ListAssets(t, lantai) <==> e in rows)
      && Distinct(ListAssets(t, lantai))
  {
    var rows := WithLogs(t, MatchingIds(t, lantai, t.nextId));
    UnorderedListingExact(t, lantai);
    SortDescMembers(rows, CreatedAtKey);
    PermutationKeepsDistinct(ListAssets(t, lantai), rows);
  }

  /** The listing holds exactly the rows that pass the floor filter (all rows without
      one), each once, newest first, each with its recent logs. */
  lemma ListAssetsExact(t: Table, lantai: Option<int>)
    requires ValidTable(t)
    ensures var r := ListAssets(t, lantai);
      && (forall e :: e in r ==>
            e.id in t.assets && e.asset == t.assets[e.id] && InFilter(lantai, e.asset)
            && e.logs == RecentLogs(t.logs, e.id))
      && (forall k :: k in t.assets && InFilter(lantai, t.assets[k]) ==>
            Listed(k, t.assets[k], RecentLogs(t.logs, k)) in r)
      && (forall i, j :: 0 <= i < j < |r| ==> r[i].id != r[j].id)
      && (forall i, j :: 0 <= i < j < |r| ==> r[i].asset.createdAt >= r[j].asset.createdAt)
  {
    var r := ListAssets(t, lantai);
    UnorderedListingExact(t, lantai);
    ListAssetsPermutes(t, lantai);
    forall i, j | 0 <= i < j < |r|
      ensures r[i].id != r[j].id
    {
      assert r[i] in r && r[j] in r;
    }
    forall i, j | 0 <= i < j < |r|
      ensures r[i].asset.createdAt >= r[j].asset.createdAt
    {
      SortedDescOrder(r, CreatedAtKey, i, j);
    }
  }
}
