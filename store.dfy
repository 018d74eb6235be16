/** The two tables of the application database (app/models/database.py and
    the Report record built in app/routers/claude_router.py) and the
    database itself. A commit is an update of the table maps; ids come from
    a counter per table, as SQLite's integer primary keys do. */
module Store {
  /** The lifecycle of a Scan or a Report: created running, then settled once. */
  const Running: string := "running"
  const Completed: string := "completed"
  const Failed: string := "failed"

  predicate IsStatus(status: string) {
    status == Running || status == Completed || status == Failed
  }

  /** A collection job; `result` is the scraper's envelope once completed.
      The creation time is an opaque clock reading. */
  datatype Scan = Scan(name: string, timestamp: int, status: string, result: string) {
    /** A running Scan holds no result yet. */
    predicate Wellformed() {
      IsStatus(status) && (status == Running ==> result == "")
    }
  }

  /** A classification job over one Scan; `classification` is JSON text
      once settled. */
  datatype Report = Report(scanId: int, name: string, timestamp: int, status: string, classification: string) {
    /** A running Report holds no classification yet. */
    predicate Wellformed() {
      IsStatus(status) && (status == Running ==> classification == "")
    }
  }

  class Database {
    var scans: map<int, Scan>
    var nextScanId: int
    var reports: map<int, Report>
    var nextReportId: int

    /** Ids are positive and below the next id to hand out, every record
        is well formed, and every Report belongs to a stored Scan. */
    ghost predicate Valid()
      reads this
    {
      && 1 <= nextScanId && 1 <= nextReportId
      && (forall id :: id in scans ==> 1 <= id < nextScanId && scans[id].Wellformed())
      && (forall id :: id in reports ==>
            1 <= id < nextReportId && reports[id].Wellformed() && reports[id].scanId in scans)
    }

    /** An empty database. */
    constructor()
      ensures Valid() && scans == map[] && reports == map[]
    {
      scans, nextScanId := map[], 1;
      reports, nextReportId := map[], 1;
    }
  }
}
