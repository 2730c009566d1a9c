/** `POST /api/assets/move` (app/api/assets/move/route.js): move part or all of an
    asset row's quantity to another floor, merging into the row of the same code there
    or creating one, in one transaction. */
module MoveRoute {
  import opened Wrappers
  import opened AssetTable

  /** The request body, each field already parsed to an integer (None when absent). */
  datatype MoveRequest = MoveRequest(assetId: Option<int>, targetLantai: Option<int>, jumlahPindah: Option<int>)

  /** The first two are rejected before the transaction starts; the other three are
      thrown inside it, before its first write. */
  datatype MoveError = MissingField | QuantityBelowOne | AssetNotFound | NotEnoughUnits | SameFloor

  /** The summary returned on success. */
  datatype MoveSummary = MoveSummary(assetName: string, from: int, to: int, quantity: int)

  /** The request passes every check of the route, so the transaction commits. */
  predicate MoveAccepted(t: Table, req: MoveRequest) {
    && GivenInt(req.assetId) && GivenInt(req.targetLantai) && GivenInt(req.jumlahPindah)
    && req.jumlahPindah.value >= 1
    && req.assetId.value >= 1
    && req.assetId.value as nat in t.assets
    && t.assets[req.assetId.value as nat].jumlah >= req.jumlahPindah.value
    && t.assets[req.assetId.value as nat].lokasiLantai != req.targetLantai.value
  }

  /** The target step: add the quantity to the row with the source's code on the
      target floor, or create that row at the next id. */
  function AddToTarget(t: Table, source: Asset, targetFloor: int, qty: int, now: int): (r: Table)
    requires ValidTable(t)
    ensures r.logs == t.logs
    ensures t.assets.Keys <= r.assets.Keys
    ensures r.nextId == t.nextId || (r.nextId == t.nextId + 1 && r.assets.Keys == t.assets.Keys + {t.nextId})
    ensures forall k :: k in t.assets && !OnFloor(t.assets[k], source.kodeAset, targetFloor) ==>
              r.assets[k] == t.assets[k]
  {
    match FindOnFloor(t, source.kodeAset, targetFloor)
    case Some(tid) =>
      t.(assets := t.assets[tid := t.assets[tid].(jumlah := t.assets[tid].jumlah + qty)])
    case None =>
      t.(assets := t.assets[t.nextId := Asset(source.nama, source.kodeAset, targetFloor,
                                              source.kondisi, source.status, qty, now)],
         nextId := t.nextId + 1)
  }

  /** The source step: delete the source row if all of it moved, otherwise reduce it. */
  function TakeFromSource(t: Table, id: nat, source: Asset, qty: int): (r: Table)
    ensures r.logs == t.logs && r.nextId == t.nextId
    ensures id in r.assets <==> source.jumlah != qty
    ensures forall k :: k != id ==> (k in r.assets <==> k in t.assets)
    ensures forall k :: k != id && k in t.assets ==> r.assets[k] == t.assets[k]
  {
    if source.jumlah == qty then t.(assets := t.assets - {id})
    else t.(assets := t.assets[id := source.(jumlah := source.jumlah - qty)])
  }

  /** The writes of the transaction: the target step, the source step, the MOVE entry. */
  function Transfer(t: Table, id: nat, targetFloor: int, qty: int, now: int): (r: Table)
    requires ValidTable(t) && id in t.assets
    ensures |r.logs| == |t.logs| + 1 && r.logs[..|t.logs|] == t.logs
    ensures r.logs[|t.logs|].action == Moved && r.logs[|t.logs|].assetId == id
  {
    var source := t.assets[id];
    var moved := TakeFromSource(AddToTarget(t, source, targetFloor, qty, now), id, source, qty);
    moved.(logs := t.logs + [ActivityLog(id, Moved, Some(source.lokasiLantai), Some(targetFloor), qty, now)])
  }

  /** The route: validation, then the transaction; a failure leaves the table as it was. */
  function MoveOp(t: Table, req: MoveRequest, now: int): (res: (Result<MoveSummary, MoveError>, Table))
    requires ValidTable(t)
    ensures res.0.Err? ==> res.1 == t
    ensures res.0.Ok? <==> MoveAccepted(t, req)
    ensures res.0.Ok? ==> |res.1.logs| == |t.logs| + 1
  {
    if !GivenInt(req.assetId) || !GivenInt(req.targetLantai) || !GivenInt(req.jumlahPindah) then
      (Err(MissingField), t)
    else if req.jumlahPindah.value < 1 then
      (Err(QuantityBelowOne), t)
    else if req.assetId.value < 0 || req.assetId.value as nat !in t.assets then
      (Err(AssetNotFound), t)
    else
      var id := req.assetId.value as nat;
      var qty := req.jumlahPindah.value;
      var targetFloor := req.targetLantai.value;
      var source := t.assets[id];
      if source.jumlah < qty then (Err(NotEnoughUnits), t)
      else if source.lokasiLantai == targetFloor then (Err(SameFloor), t)
      else (Ok(MoveSummary(source.nama, source.lokasiLantai, targetFloor, qty)), Transfer(t, id, targetFloor, qty, now))
  }

  /** Each rejection, in the order the route checks them; any rejection leaves the
      table, the id counter and the log unchanged. */
  lemma MoveRejections(t: Table, req: MoveRequest, now: int)
    requires ValidTable(t)
    ensures var (r, t') := MoveOp(t, req, now);
      && (r.Err? ==> t' == t)
      && (r.Ok? <==> MoveAccepted(t, req))
      && (r == Err(MissingField) <==>
            !GivenInt(req.assetId) || !GivenInt(req.targetLantai) || !GivenInt(req.jumlahPindah))
      && (r == Err(QuantityBelowOne) <==>
            GivenInt(req.assetId) && GivenInt(req.targetLantai) && GivenInt(req.jumlahPindah)
            && req.jumlahPindah.value < 1)
      && (r == Err(AssetNotFound) ==> req.assetId.value < 1 || req.assetId.value as nat !in t.assets)
      && (r == Err(NotEnoughUnits) ==>
            req.assetId.value as nat in t.assets && t.assets[req.assetId.value as nat].jumlah < req.jumlahPindah.value)
      && (r == Err(SameFloor) ==>
            req.assetId.value as nat in t.assets
            && t.assets[req.assetId.value as nat].lokasiLantai == req.targetLantai.value
            && t.assets[req.assetId.value as nat].jumlah >= req.jumlahPindah.value)
  {
  }

  /** On success the summary carries the source's name and floor, the target floor and
      the quantity, and exactly one MOVE entry with the same values is appended. */
  lemma MoveLogsOnce(t: Table, req: MoveRequest, now: int)
    requires ValidTable(t) && MoveAccepted(t, req)
    ensures var (r, t') := MoveOp(t, req, now);
      var id := req.assetId.value as nat;
      && r == Ok(MoveSummary(t.assets[id].nama, t.assets[id].lokasiLantai, req.targetLantai.value, req.jumlahPindah.value))
      && t'.logs == t.logs + [ActivityLog(id, Moved, Some(t.assets[id].lokasiLantai),
                                          Some(req.targetLantai.value), req.jumlahPindah.value, now)]
  {
  }

  /** Merge case: the row with the source's code on the target floor gains exactly the
      moved quantity, keeps every other field, and no row is created. */
  lemma MoveMergesIntoExisting(t: Table, req: MoveRequest, now: int, k: nat)
    requires ValidTable(t) && MoveAccepted(t, req)
    requires k in t.assets && OnFloor(t.assets[k], t.assets[req.assetId.value as nat].kodeAset, req.targetLantai.value)
    ensures var t' := MoveOp(t, req, now).1;
      && k in t'.assets
      && t'.assets[k] == t.assets[k].(jumlah := t.assets[k].jumlah + req.jumlahPindah.value)
      && t'.nextId == t.nextId
      && t'.assets.Keys <= t.assets.Keys
  {
  }

  /** Create case: with no row of the source's code on the target floor, exactly one
      row appears there, at the next id, copying name, code, condition and status from
      the source and holding the moved quantity. */
  lemma MoveCreatesOnTarget(t: Table, req: MoveRequest, now: int)
    requires ValidTable(t) && MoveAccepted(t, req)
    requires forall k :: k in t.assets ==>
               !OnFloor(t.assets[k], t.assets[req.assetId.value as nat].kodeAset, req.targetLantai.value)
    ensures var t' := MoveOp(t, req, now).1;
      var source := t.assets[req.assetId.value as nat];
      && t'.nextId == t.nextId + 1
      && t.nextId !in t.assets
      && t.nextId in t'.assets
      && t'.assets[t.nextId] == Asset(source.nama, source.kodeAset, req.targetLantai.value,
                                      source.kondisi, source.status, req.jumlahPindah.value, now)
      && t'.assets.Keys <= t.assets.Keys + {t.nextId}
  {
  }

  /** The source row is deleted exactly when its whole quantity moves; otherwise it
      loses the moved quantity and keeps every other field. */
  lemma MoveReducesOrDeletesSource(t: Table, req: MoveRequest, now: int)
    requires ValidTable(t) && MoveAccepted(t, req)
    ensures var t' := MoveOp(t, req, now).1;
      var id := req.assetId.value as nat;
      var qty := req.jumlahPindah.value;
      && (id !in t'.assets <==> t.assets[id].jumlah == qty)
      && (id in t'.assets ==> t'.assets[id] == t.assets[id].(jumlah := t.assets[id].jumlah - qty))
  {
  }

  /** Rows other than the source and the target are untouched. */
  lemma MoveLeavesOtherRows(t: Table, req: MoveRequest, now: int, k: nat)
    requires ValidTable(t) && MoveAccepted(t, req)
    requires k in t.assets && k != req.assetId.value as nat
    requires !OnFloor(t.assets[k], t.assets[req.assetId.value as nat].kodeAset, req.targetLantai.value)
    ensures var t' := MoveOp(t, req, now).1;
      k in t'.assets && t'.assets[k] == t.assets[k]
  {
  }

  /** The target step keeps the invariant whenever it adds at least one unit: a merge
      only raises a quantity, and a created row takes a fresh id and a (code, floor)
      pair that no row has. */
  lemma AddToTargetKeepsValid(t: Table, source: Asset, floor: int, qty: int, now: int)
    requires ValidTable(t) && qty >= 1
    ensures ValidTable(AddToTarget(t, source, floor, qty, now))
  {
    var t1 := AddToTarget(t, source, floor, qty, now);
    var target := FindOnFloor(t, source.kodeAset, floor);
    if target.None? {
      var row := Asset(source.nama, source.kodeAset, floor, source.kondisi, source.status, qty, now);
      assert t1.assets == t.assets[t.nextId := row];
      assert t.nextId !in t.assets;
      forall i, j | i in t1.assets && j in t1.assets && i != j
        ensures !OnFloor(t1.assets[j], t1.assets[i].kodeAset, t1.assets[i].lokasiLantai)
      {
        if i != t.nextId && j != t.nextId {
          assert t1.assets[i] == t.assets[i] && t1.assets[j] == t.assets[j];
        }
      }
    }
  }

  /** The target step of a move keeps the invariant and leaves the source row, which
      is on another floor, as it was. */
  lemma AddToTargetValid(t: Table, id: nat, floor: int, qty: int, now: int)
    requires ValidTable(t) && id in t.assets && qty >= 1
    requires t.assets[id].lokasiLantai != floor
    ensures var t1 := AddToTarget(t, t.assets[id], floor, qty, now);
      ValidTable(t1) && id in t1.assets && t1.assets[id] == t.assets[id]
  {
    AddToTargetKeepsValid(t, t.assets[id], floor, qty, now);
  }

  /** The target step adds the moved units to the total of the source's code and
      changes no other code's total. */
  lemma AddToTargetTotal(t: Table, source: Asset, floor: int, qty: int, now: int, code: string)
    requires ValidTable(t)
    ensures var t1 := AddToTarget(t, source, floor, qty, now);
      CodeTotal(t1.assets, code, t1.nextId) ==
        QuantityOf(t, code) + (if code == source.kodeAset then qty else 0)
  {
    var m := t.assets;
    var t1 := AddToTarget(t, source, floor, qty, now);
    var target := FindOnFloor(t, source.kodeAset, floor);
    if target.Some? {
      CodeTotalChangeAt(m, t1.assets, code, target.value, t.nextId);
    } else {
      CodeTotalBelow(m, t1.assets, code, t.nextId);
    }
  }

  /** The source step keeps the invariant: it deletes the source row or leaves it
      with at least one unit. */
  lemma TakeFromSourceKeepsValid(t: Table, id: nat, source: Asset, qty: int)
    requires ValidTable(t) && id in t.assets && t.assets[id] == source && source.jumlah >= qty
    ensures ValidTable(TakeFromSource(t, id, source, qty))
  {
    var t2 := TakeFromSource(t, id, source, qty);
    forall i, j | i in t2.assets && j in t2.assets && i != j
      ensures !OnFloor(t2.assets[j], t2.assets[i].kodeAset, t2.assets[i].lokasiLantai)
    {
      assert !OnFloor(t.assets[j], t.assets[i].kodeAset, t.assets[i].lokasiLantai);
    }
  }

  /** The source step keeps the invariant and takes the moved units off the total of
      the source's code. */
  lemma TakeFromSourceSound(t: Table, id: nat, source: Asset, qty: int, code: string)
    requires ValidTable(t) && id in t.assets && t.assets[id] == source && source.jumlah >= qty
    ensures var t2 := TakeFromSource(t, id, source, qty);
      && ValidTable(t2)
      && QuantityOf(t2, code) == QuantityOf(t, code) - (if code == source.kodeAset then qty else 0)
  {
    TakeFromSourceKeepsValid(t, id, source, qty);
    CodeTotalChangeAt(t.assets, TakeFromSource(t, id, source, qty).assets, code, id, t.nextId);
  }

  /** A move keeps the table invariant: ids below the counter, positive quantities,
      and (code, floor) uniqueness. */
  lemma MovePreservesValid(t: Table, req: MoveRequest, now: int)
    requires ValidTable(t)
    ensures ValidTable(MoveOp(t, req, now).1)
  {
    if MoveAccepted(t, req) {
      var id := req.assetId.value as nat;
      var floor, qty := req.targetLantai.value, req.jumlahPindah.value;
      AddToTargetValid(t, id, floor, qty, now);
      TakeFromSourceSound(AddToTarget(t, t.assets[id], floor, qty, now), id, t.assets[id], qty, "");
    }
  }

  /** The quantity of every asset code, summed over all floors, is the same before and
      after a move (for the moved code the units only change floor). */
  lemma MoveConservesQuantity(t: Table, req: MoveRequest, now: int, code: string)
    requires ValidTable(t)
    ensures QuantityOf(MoveOp(t, req, now).1, code) == QuantityOf(t, code)
  {
    if MoveAccepted(t, req) {
      var id := req.assetId.value as nat;
      var floor, qty := req.targetLantai.value, req.jumlahPindah.value;
      AddToTargetValid(t, id, floor, qty, now);
      AddToTargetTotal(t, t.assets[id], floor, qty, now, code);
      TakeFromSourceSound(AddToTarget(t, t.assets[id], floor, qty, now), id, t.assets[id], qty, code);
    }
  }

  /** Worked example: the only row of code X1 (floor 1, 5 units) moves all 5 units to
      floor 2, where X1 is absent: the source row is gone, a row of 5 units appears on
      floor 2, and one MOVE entry is logged. */
  lemma MoveAllToEmptyFloor()
    ensures var t := Table(map[1 := Asset("Kursi", "X1", 1, "Baik", "Aktif", 5, 0)], 2, []);
      var (r, t') := MoveOp(t, MoveRequest(Some(1), Some(2), Some(5)), 10);
      && r == Ok(MoveSummary("Kursi", 1, 2, 5))
      && t'.assets == map[2 := Asset("Kursi", "X1", 2, "Baik", "Aktif", 5, 10)]
      && t'.logs == [ActivityLog(1, Moved, Some(1), Some(2), 5, 10)]
  {
  }
}
