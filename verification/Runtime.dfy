/** The database and the session around each request: commit on return, roll back on an exception. */
module Runtime {
  import opened Store

  class Database {
    var store: Store

    constructor ()
      ensures store == EMPTY
    {
      store := EMPTY;
    }
  }

  class Session {
    const database: Database
    var work: Store

    constructor (database: Database)
      ensures this.database == database && work == database.store
    {
      this.database := database;
      work := database.store;
    }

    /** Everything the session wrote is undone, and it sees what is committed by now. */
    method Rollback()
      modifies this`work
      ensures work == database.store
    {
      work := database.store;
    }

    /** The end of a request: what the handler wrote becomes visible unless it raised. */
    method Close(raised: bool)
      modifies this, database
      ensures database.store == (if raised then old(database.store) else old(work))
      ensures work == database.store
    {
      if raised {
        work := database.store;
      } else {
        database.store := work;
      }
    }
  }
}
