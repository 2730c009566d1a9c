/** The asset table and the activity log as the asset routes see them: rows keyed by
    an auto-incremented id, the next id to hand out, and the append-only log. */
module AssetTable {
  import opened Wrappers

  /** A row of the asset table. `createdAt` is the insertion time given by the clock. */
  datatype Asset = Asset(
    nama: string,
    kodeAset: string,
    lokasiLantai: int,
    kondisi: string,
    status: string,
    jumlah: int,
    createdAt: int)

  datatype LogAction = Created | Updated | Moved | Deleted

  /** A row of the activity log; a floor the route does not set is None. */
  datatype ActivityLog = ActivityLog(
    assetId: nat,
    action: LogAction,
    lantaiAsal: Option<int>,
    lantaiTujuan: Option<int>,
    jumlah: int,
    timestamp: int)

  /** JavaScript truthiness of a request field already parsed to an integer:
      a missing field and 0 are falsy. */
  predicate GivenInt(x: Option<int>) {
    x.Some? && x.value != 0
  }

  /** JavaScript truthiness of a string request field: a missing field and "" are falsy. */
  predicate GivenText(x: Option<string>) {
    x.Some? && x.value != ""
  }

  datatype Table = Table(assets: map<nat, Asset>, nextId: nat, logs: seq<ActivityLog>)

  /** The table a fresh database starts with: auto-increment ids start at 1. */
  function EmptyTable(): Table {
    Table(map[], 1, [])
  }

  predicate OnFloor(a: Asset, code: string, floor: int) {
    a.kodeAset == code && a.lokasiLantai == floor
  }

  /** An asset code appears at most once per floor. */
  ghost predicate UniquePerFloor(m: map<nat, Asset>) {
    forall i, j :: i in m && j in m && i != j ==>
      !OnFloor(m[j], m[i].kodeAset, m[i].lokasiLantai)
  }

  /** The table invariant the modelled create and move routes keep: ids were handed out below `nextId`,
      every row holds at least one unit, and (code, floor) is unique. */
  ghost predicate ValidTable(t: Table) {
    && t.nextId >= 1
    && (forall id :: id in t.assets ==> 1 <= id < t.nextId)
    && (forall id :: id in t.assets ==> t.assets[id].jumlah >= 1)
    && UniquePerFloor(t.assets)
  }

  /** `findFirst({ kode_aset: code, lokasi_lantai: floor })` over the ids in [i, bound),
      lowest id first. */
  function FindFirstFrom(m: map<nat, Asset>, code: string, floor: int, i: nat, bound: nat): (r: Option<nat>)
    decreases bound - i
    ensures r.Some? ==> i <= r.value < bound && r.value in m && OnFloor(m[r.value], code, floor)
    ensures r.Some? ==> forall k :: i <= k < r.value && k in m ==> !OnFloor(m[k], code, floor)
    ensures r.None? ==> forall k :: i <= k < bound && k in m ==> !OnFloor(m[k], code, floor)
  {
    if i >= bound then None
    else if i in m && OnFloor(m[i], code, floor) then Some(i)
    else FindFirstFrom(m, code, floor, i + 1, bound)
  }

  /** The row with `code` on `floor`, if the table has one. */
  function FindOnFloor(t: Table, code: string, floor: int): (r: Option<nat>)
    requires ValidTable(t)
    ensures r.Some? ==> r.value in t.assets && OnFloor(t.assets[r.value], code, floor)
    ensures r.Some? ==> forall k :: k in t.assets && OnFloor(t.assets[k], code, floor) ==> k == r.value
    ensures r.None? <==> forall k :: k in t.assets ==> !OnFloor(t.assets[k], code, floor)
  {
    FindFirstFrom(t.assets, code, floor, 0, t.nextId)
  }

  /** The units of `code` held by the row with id `id` (0 when there is no such row). */
  function Units(m: map<nat, Asset>, code: string, id: nat): int {
    if id in m && m[id].kodeAset == code then m[id].jumlah else 0
  }

  /** The total quantity of `code` over the ids below `n`, across all floors. */
  function CodeTotal(m: map<nat, Asset>, code: string, n: nat): int {
    if n == 0 then 0 else CodeTotal(m, code, n - 1) + Units(m, code, n - 1)
  }

  /** The total quantity of `code` in the table, across all floors. */
  function QuantityOf(t: Table, code: string): int {
    CodeTotal(t.assets, code, t.nextId)
  }

  /** Changing the row at one id changes the total by the difference at that id. */
  lemma {:induction false} CodeTotalChangeAt(m: map<nat, Asset>, m': map<nat, Asset>, code: string, k: nat, n: nat)
    requires forall id: nat :: id != k ==> Units(m, code, id) == Units(m', code, id)
    ensures CodeTotal(m', code, n) ==
            CodeTotal(m, code, n) + (if k < n then Units(m', code, k) - Units(m, code, k) else 0)
  {
    if n > 0 {
      CodeTotalChangeAt(m, m', code, k, n - 1);
    }
  }

  /** Rows at ids at or beyond `n` do not count towards the total below `n`. */
  lemma {:induction false} CodeTotalBelow(m: map<nat, Asset>, m': map<nat, Asset>, code: string, n: nat)
    requires forall id: nat :: id < n ==> Units(m, code, id) == Units(m', code, id)
    ensures CodeTotal(m', code, n) == CodeTotal(m, code, n)
  {
    if n > 0 {
      CodeTotalBelow(m, m', code, n - 1);
    }
  }
}
