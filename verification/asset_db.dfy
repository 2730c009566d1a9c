/** The database the asset routes run their transactions against: the asset table,
    its auto-increment counter and the activity log, updated in place. Each method is
    one route's request handling; its transaction is atomic, which the model gets by
    making every check before the first write. */
module AssetStore {
  import opened Wrappers
  import opened AssetTable
  import opened AssetsRoute
  import opened MoveRoute

  class AssetDb {
    var assets: map<nat, Asset>
    var nextId: nat
    var logs: seq<ActivityLog>

    function State(): Table
      reads this
    {
      Table(assets, nextId, logs)
    }

    ghost predicate Valid()
      reads this
    {
      ValidTable(State())
    }

    constructor ()
      ensures Valid()
      ensures State() == EmptyTable()
    {
      assets := map[];
      nextId := 1;
      logs := [];
    }

    /** `POST /api/assets`. */
    method Create(req: CreateRequest, now: int) returns (r: Result<Row, CreateError>)
      requires Valid()
      modifies this
      ensures Valid()
      ensures (r, State()) == CreateOp(old(State()), req, now)
      ensures r.Err? ==> State() == old(State())
      ensures r.Ok? ==> assets == old(assets)[r.value.id := r.value.asset] && r.value.id !in old(assets)
      ensures r.Ok? ==> logs == old(logs) + [ActivityLog(r.value.id, Created, None, None, r.value.asset.jumlah, now)]
    {
      if !GivenText(req.nama) || !GivenText(req.kodeAset) || !GivenInt(req.lokasiLantai)
         || !GivenText(req.kondisi) || !GivenText(req.status) {
        return Err(CreateError.MissingField);
      }
      var qty := DefaultQuantity(req.jumlah);
      if qty < 1 {
        return Err(CreateError.QuantityBelowOne);
      }
      var floor := req.lokasiLantai.value;
      var existing := FindOnFloor(State(), req.kodeAset.value, floor);
      if existing.Some? {
        return Err(DuplicateCodeOnFloor);
      }
      // the transaction: the row, then its log entry
      var id := nextId;
      var asset := Asset(req.nama.value, req.kodeAset.value, floor, req.kondisi.value, req.status.value, qty, now);
      assets := assets[id := asset];
      nextId := nextId + 1;
      logs := logs + [ActivityLog(id, Created, None, None, qty, now)];
      r := Ok(Row(id, asset));
      CreatePreservesValid(old(State()), req, now);
    }

    /** `POST /api/assets/move`. */
    method Move(req: MoveRequest, now: int) returns (r: Result<MoveSummary, MoveError>)
      requires Valid()
      modifies this
      ensures Valid()
      ensures (r, State()) == MoveOp(old(State()), req, now)
      ensures r.Err? ==> State() == old(State())
      ensures r.Ok? ==> |logs| == |old(logs)| + 1 && logs[..|old(logs)|] == old(logs) && logs[|old(logs)|].action == Moved
    {
      if !GivenInt(req.assetId) || !GivenInt(req.targetLantai) || !GivenInt(req.jumlahPindah) {
        return Err(MoveError.MissingField);
      }
      var qty := req.jumlahPindah.value;
      var targetFloor := req.targetLantai.value;
      if qty < 1 {
        return Err(MoveError.QuantityBelowOne);
      }
      // the transaction: three checks, then the writes
      if req.assetId.value < 0 || req.assetId.value as nat !in assets {
        return Err(AssetNotFound);
      }
      var id := req.assetId.value as nat;
      var source := assets[id];
      if source.jumlah < qty {
        return Err(NotEnoughUnits);
      }
      if source.lokasiLantai == targetFloor {
        return Err(SameFloor);
      }
      var lantaiAsal := source.lokasiLantai;
      ghost var before := State();
      AddToTargetValid(before, id, targetFloor, qty, now);
      AddToTargetRow(source, targetFloor, qty, now);
      TakeFromSourceRow(id, source, qty);
      logs := logs + [ActivityLog(id, Moved, Some(lantaiAsal), Some(targetFloor), qty, now)];
      r := Ok(MoveSummary(source.nama, lantaiAsal, targetFloor, qty));
      assert State() == Transfer(before, id, targetFloor, qty, now);
      MovePreservesValid(old(State()), req, now);
    }

    /** The target step of a move: merge into the row with the source's code on the
        target floor, or create that row at the next id. */
    method AddToTargetRow(source: Asset, targetFloor: int, qty: int, now: int)
      requires Valid() && qty >= 1
      modifies this
      ensures Valid()
      ensures State() == AddToTarget(old(State()), source, targetFloor, qty, now)
    {
      ghost var before := State();
      AddToTargetKeepsValid(before, source, targetFloor, qty, now);
      var target := FindOnFloor(State(), source.kodeAset, targetFloor);
      if target.Some? {
        var row := assets[target.value];
        assets := assets[target.value := row.(jumlah := row.jumlah + qty)];
      } else {
        assets := assets[nextId := Asset(source.nama, source.kodeAset, targetFloor,
                                         source.kondisi, source.status, qty, now)];
        nextId := nextId + 1;
      }
      assert State() == AddToTarget(before, source, targetFloor, qty, now);
    }

    /** The source step of a move: delete the source row when all of it moved,
        otherwise lower its quantity. */
    method TakeFromSourceRow(id: nat, source: Asset, qty: int)
      requires Valid() && id in assets && assets[id] == source && source.jumlah >= qty
      modifies this
      ensures Valid()
      ensures State() == TakeFromSource(old(State()), id, source, qty)
    {
      ghost var before := State();
      TakeFromSourceKeepsValid(before, id, source, qty);
      if source.jumlah == qty {
        assets := assets - {id};
      } else {
        assets := assets[id := source.(jumlah := source.jumlah - qty)];
      }
      assert State() == TakeFromSource(before, id, source, qty);
    }
  }
}
