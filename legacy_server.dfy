/** The older server of server/server.go: `New` creates the buffer client and the
    `taps` map, and its only route, `POST /taps`, stores the definition and starts
    the runner directly with `webhook.Start` under a context that is never
    cancelled. */
module LegacyServer {
  import opened Wrappers
  import opened Data
  import opened Registry
  import opened Webhook
  import opened TapServer

  class Server {
    const db: Database

    constructor (db: Database)
      ensures this.db == db
    {
      this.db := db;
    }

    /** `POST /taps`: 400 for a body that does not decode, an id that cannot be
        generated or a marshal failure, 500 for a failed write or a runner that does
        not start (the definition stays stored), else 201 with a runner that starts
        at the beginning of the stream. */
    method Post(body: Option<TapOptions>, newId: Option<string>, marshalOk: bool, writeOk: bool,
                engine: string -> Engine, lastIdReadOk: bool)
      returns (resp: Response, runner: Runner?)
      requires WellFormed(db.store) && db.store.root
      requires newId.Some? ==> newId.value !in db.store.taps
      modifies db
      ensures WellFormed(db.store) && db.store.root
      ensures var stored := body.Some? && newId.Some? && marshalOk && writeOk;
        && (stored ==> db.store == CreateTap(old(db.store), newId.value, body.value))
        && (!stored ==> db.store == old(db.store))
        && (resp.Created? <==>
              && stored && lastIdReadOk
              && engine(body.value.code).compileError.None?
              && engine(body.value.code).runError.None?
              && engine(body.value.code).definesMapEvents)
        && (resp.Created? ==> resp.id == newId.value)
        && (resp.Answered? ==> resp.code == (if body.None? || newId.None? || !marshalOk then StatusBadRequest else StatusInternalServerError))
        && (resp.Created? || resp.Answered?)
      ensures runner != null <==> resp.Created?
      ensures runner != null ==>
        && fresh(runner) && runner.db == db && runner.alive
        && runner.id == newId.value && runner.opts == body.value && runner.lastID == ""
    {
      runner := null;
      if body.None? || newId.None? || !marshalOk {
        return Answered(StatusBadRequest), null;
      }
      var id := newId.value;
      if !writeOk {
        return Answered(StatusInternalServerError), null;
      }
      db.store := CreateTap(db.store, id, body.value);
      var err;
      err, runner := Start(db, id, engine, lastIdReadOk);
      if err.Some? {
        return Answered(StatusInternalServerError), null;
      }
      resp := Created(id);
    }
  }

  /** `New`: a buffer client that cannot be created, or an initialising write that
      does not commit, yields an error and no server; otherwise `taps` exists. */
  method New(db: Database, clientOk: bool, initOk: bool) returns (err: Option<string>, srv: Server?)
    requires WellFormed(db.store)
    modifies db
    ensures err == if !clientOk then Some("could not create buffer client")
                   else if !initOk then Some("could not initialize db")
                   else None
    ensures srv != null <==> err.None?
    ensures srv != null ==> fresh(srv) && srv.db == db
    ensures db.store == if clientOk && initOk then InitRoot(old(db.store)) else old(db.store)
    ensures err.None? ==> WellFormed(db.store) && db.store.root
  {
    if !clientOk {
      return Some("could not create buffer client"), null;
    }
    if !initOk {
      return Some("could not initialize db"), null;
    }
    db.store := InitRoot(db.store);
    srv := new Server(db);
    err := None;
  }
}
