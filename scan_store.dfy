/** The Scan table operations `create_scan`, `get_scan` and `get_scans`.
    app/routers/scans_router.py and app/services/scan_tracker.py define
    them twice, line for line alike; these members model both. */
module ScanStore {
  import opened Outcomes
  import opened Text
  import opened Store

  /** `create_scan(db, scan)`: inserts a running Scan with an empty result
      under a fresh id and returns that id. */
  method CreateScan(db: Database, name: string, now: int) returns (id: int)
    requires db.Valid()
    modifies db
    ensures db.Valid()
    ensures id !in old(db.scans)
    ensures db.scans == old(db.scans)[id := Scan(name, now, Running, "")]
    ensures GetScan(db, id) == Some(Scan(name, now, Running, ""))
    ensures db.reports == old(db.reports) && db.nextReportId == old(db.nextReportId)
  {
    id := db.nextScanId;
    db.scans := db.scans[id := Scan(name, now, Running, "")];
    db.nextScanId := db.nextScanId + 1;
  }

  /** `get_scan(db, scan_id)`: the Scan with that id, or None. */
  function GetScan(db: Database, id: int): (r: Option<Scan>)
    reads db
    ensures r.Some? <==> id in db.scans
    ensures r.Some? ==> r.value == db.scans[id]
  {
    if id in db.scans then Some(db.scans[id]) else None
  }

  /** A filter argument that is None or empty applies no filter. */
  predicate Falsy(filter: Option<string>) {
    filter.None? || filter.value == ""
  }

  /** `query.filter(...)`: the records that pass a test. */
  function Where(scans: map<int, Scan>, keep: Scan -> bool): (r: map<int, Scan>)
    ensures forall id :: id in r <==> id in scans && keep(scans[id])
    ensures forall id :: id in r ==> r[id] == scans[id]
  {
    map id | id in scans && keep(scans[id]) :: scans[id]
  }

  /** `get_scans(db, name, status)`: the Scans whose name contains `name`
      and whose status is `status`, each filter applied only when given. */
  function GetScans(db: Database, name: Option<string>, status: Option<string>): (r: map<int, Scan>)
    reads db
    ensures forall id :: id in r <==>
      && id in db.scans
      && (Falsy(name) || Contains(db.scans[id].name, name.value))
      && (Falsy(status) || db.scans[id].status == status.value)
    ensures forall id :: id in r ==> r[id] == db.scans[id]
  {
    var byName := if Falsy(name) then db.scans else Where(db.scans, (scan: Scan) => Contains(scan.name, name.value));
    if Falsy(status) then byName else Where(byName, (scan: Scan) => scan.status == status.value)
  }

  /** Without filters, or with empty ones, every Scan is listed. */
  lemma GetScansUnfiltered(db: Database, name: Option<string>, status: Option<string>)
    requires Falsy(name) && Falsy(status)
    ensures GetScans(db, name, status) == db.scans
  {
    var r := GetScans(db, name, status);
    assert r.Keys == db.scans.Keys;
  }

  /** With both filters the listing is the intersection of the two
      single-filter listings. */
  lemma GetScansBoth(db: Database, name: string, status: string)
    ensures GetScans(db, Some(name), Some(status)).Keys ==
      GetScans(db, Some(name), None).Keys * GetScans(db, None, Some(status)).Keys
  {
  }

  /** A stored Scan is listed under its own name and its own status. */
  lemma ScanListedUnderItself(db: Database, id: int)
    requires GetScan(db, id).Some?
    ensures var scan := GetScan(db, id).value;
      id in GetScans(db, Some(scan.name), Some(scan.status))
  {
    var scan := db.scans[id];
    assert OccursAt(scan.name, scan.name, 0) by {
      assert scan.name[0..|scan.name|] == scan.name;
    }
  }
}
