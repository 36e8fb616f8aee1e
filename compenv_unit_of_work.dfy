/** The unit of work of `compenv` (compenv/service/abstract.py, compenv/adapters/unit_of_work.py):
    its repository is reachable only inside its scope, entering starts a transaction on the
    connection unless one is running, and leaving always rolls back. The connection follows the
    transaction of the unit tests: starting takes a snapshot of the repository's contents, rolling
    back restores it, and committing ends the transaction so that a later rollback does nothing. */
module CompenvUnitOfWork {
  import opened Wrappers

  const OutsideOfContext := "Records not available outside of context"

  /** The contents of a repository, of any type `S`. */
  class Store<S> {
    var contents: S

    constructor (contents: S)
      ensures this.contents == contents
    {
      this.contents := contents;
    }
  }

  /** A connection whose transaction covers one store. */
  class Connection<S> {
    const store: Store<S>
    var inTransaction: bool
    /** The contents of the store when the transaction started. */
    var snapshot: S

    constructor (store: Store<S>)
      ensures this.store == store && !inTransaction && snapshot == store.contents
    {
      this.store := store;
      inTransaction := false;
      snapshot := store.contents;
    }

    /** `start()`. */
    method Start()
      modifies this
      ensures inTransaction && snapshot == store.contents
    {
      snapshot := store.contents;
      inTransaction := true;
    }

    /** `commit()`: the changes stay. */
    method Commit()
      modifies this
      ensures !inTransaction && snapshot == old(snapshot)
    {
      inTransaction := false;
    }

    /** `rollback()`: inside a transaction, the store gets its contents back; outside, nothing
        happens. */
    method Rollback()
      modifies this, store
      ensures old(inTransaction) ==> store.contents == old(snapshot)
      ensures !old(inTransaction) ==> store.contents == old(store.contents)
      ensures !inTransaction && snapshot == old(snapshot)
    {
      if inTransaction {
        store.contents := snapshot;
        inTransaction := false;
      }
    }
  }

  /** `DJUnitOfWork` with the `UnitOfWork` it extends. */
  class UnitOfWork<S> {
    const connection: Connection<S>
    /** `_records`: the repository the scope gives access to. */
    const repository: Store<S>
    var inContext: bool

    ghost predicate Valid()
      reads this, connection
    {
      connection.store == repository
    }

    /** A unit of work starts outside its scope. */
    constructor (connection: Connection<S>, repository: Store<S>)
      requires connection.store == repository
      ensures Valid() && this.connection == connection && this.repository == repository && !inContext
    {
      this.connection := connection;
      this.repository := repository;
      inContext := false;
    }

    /** `records`: the repository inside the scope; a RuntimeError outside. */
    method Records() returns (r: Result<Store<S>>)
      ensures inContext ==> r == Ok(repository)
      ensures !inContext ==> r == Err(RuntimeError(OutsideOfContext))
    {
      if !inContext {
        return Err(RuntimeError(OutsideOfContext));
      }
      return Ok(repository);
    }

    /** `__enter__`: a transaction starts unless one is running already, so that entering a
        second time keeps the first snapshot; then the scope opens. */
    method Enter()
      requires Valid()
      modifies this, connection
      ensures Valid() && inContext && connection.inTransaction
      ensures old(connection.inTransaction) ==> connection.snapshot == old(connection.snapshot)
      ensures !old(connection.inTransaction) ==> connection.snapshot == repository.contents
      ensures repository.contents == old(repository.contents)
    {
      if !connection.inTransaction {
        connection.Start();
      }
      inContext := true;
    }

    /** `commit()`. */
    method Commit()
      requires Valid()
      modifies connection
      ensures Valid() && !connection.inTransaction && connection.snapshot == old(connection.snapshot)
      ensures repository.contents == old(repository.contents)
    {
      connection.Commit();
    }

    /** `__exit__`, whether or not the scope raised: roll back, then close the scope. */
    method Exit()
      requires Valid()
      modifies this, connection, repository
      ensures Valid() && !inContext && !connection.inTransaction
      ensures old(connection.inTransaction) ==> repository.contents == old(connection.snapshot)
      ensures !old(connection.inTransaction) ==> repository.contents == old(repository.contents)
    {
      connection.Rollback();
      inContext := false;
    }
  }

  /** A unit of work outside its scope, with no transaction running. */
  ghost predicate Idle<S>(uow: UnitOfWork<S>)
    reads uow, uow.connection
  {
    uow.Valid() && !uow.inContext && !uow.connection.inTransaction
  }

  /** Changing the repository inside the scope without committing: on leaving, the change is
      undone and the repository is out of reach again. */
  method RollsBackByDefault<S>(uow: UnitOfWork<S>, change: S -> S) returns (inside: Result<Store<S>>, outside: Result<Store<S>>)
    requires Idle(uow)
    modifies uow, uow.connection, uow.repository
    ensures Idle(uow)
    ensures inside == Ok(uow.repository) && outside == Err(RuntimeError(OutsideOfContext))
    ensures uow.repository.contents == old(uow.repository.contents)
  {
    uow.Enter();
    inside := uow.Records();
    uow.repository.contents := change(uow.repository.contents);
    uow.Exit();
    outside := uow.Records();
  }

  /** Changing the repository inside the scope and committing: the change survives leaving. */
  method CommitKeepsChange<S>(uow: UnitOfWork<S>, change: S -> S)
    requires Idle(uow)
    modifies uow, uow.connection, uow.repository
    ensures Idle(uow)
    ensures uow.repository.contents == change(old(uow.repository.contents))
  {
    uow.Enter();
    uow.repository.contents := change(uow.repository.contents);
    uow.Commit();
    uow.Exit();
  }

  /** Entering a second time inside the scope starts nothing: leaving restores the contents from
      before the first entry. */
  method NestedEntryKeepsSnapshot<S>(uow: UnitOfWork<S>, change: S -> S)
    requires Idle(uow)
    modifies uow, uow.connection, uow.repository
    ensures Idle(uow)
    ensures uow.repository.contents == old(uow.repository.contents)
  {
    uow.Enter();
    uow.repository.contents := change(uow.repository.contents);
    uow.Enter();
    uow.Exit();
  }

  /** The attributes `DJUnitOfWork.__init__` assigns: `connection` is a plain attribute, while
      `records` is a property of `UnitOfWork` with no setter. */
  datatype Attribute = Plain | ReadOnlyProperty

  /** Assigning to an attribute of an instance: an AttributeError for a property with no setter. */
  function SetAttribute(kind: Attribute): (r: Result<()>)
    ensures r.Err? <==> kind == ReadOnlyProperty
    ensures r.Err? ==> r.error == AttributeError
  {
    if kind == ReadOnlyProperty then Err(AttributeError) else Ok(())
  }

  /** `DJUnitOfWork.__init__` as written: `self.connection = ...`, then `self.records = ...`. */
  function InitAsWritten(): Result<()> {
    var _ := SetAttribute(Plain);
    SetAttribute(ReadOnlyProperty)
  }

  /** As written, constructing a `DJUnitOfWork` always raises an AttributeError. */
  lemma InitAsWrittenFails()
    ensures InitAsWritten() == Err(AttributeError)
  {
  }
}
