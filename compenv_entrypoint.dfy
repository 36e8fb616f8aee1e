/** The entrypoint helpers of `compenv` (compenv/infrastructure/entrypoint.py): the entrypoint that
    forwards diffs to the controller, the context a schema is declared in, and a table whose class
    uses another connection for the duration of a block. */
module CompenvEntrypoint {
  import opened Wrappers
  import opened PrimaryKeys
  import opened CompenvServices
  import opened CompenvController

  /** `Entrypoint`, attached to a table as `records`. */
  class Entrypoint<W> {
    const controller: DJController<W>

    constructor (controller: DJController<W>)
      ensures this.controller == controller
    {
      this.controller := controller;
    }

    /** `diff(key1, key2)`: both keys go to the controller unchanged and in order, so the diff
        service is called once with their identifiers. */
    method Diff(key1: PrimaryKey, key2: PrimaryKey) returns (r: Result<()>)
      requires controller.diffService.repo.translator == controller.translator && controller.diffService.repo.Valid()
      modifies controller.translator, controller.diffService, controller.diffService.outputPort
      ensures var identifier1 := controller.translator.toIdentifier(key1.items);
        var identifier2 := controller.translator.toIdentifier(key2.items);
        && controller.diffService.requests == old(controller.diffService.requests) + [DiffRequest(identifier1, identifier2)]
        && var diff := DiffOf(controller.diffService.repo.Lookup(identifier1), controller.diffService.repo.Lookup(identifier2));
        && (diff.Ok? ==> r == Ok(()) && controller.diffService.outputPort.responses == old(controller.diffService.outputPort.responses) + [diff.value])
        && (diff.Err? ==> r == Err(diff.error) && controller.diffService.outputPort.responses == old(controller.diffService.outputPort.responses))
    {
      r := controller.Diff(key1, key2);
    }
  }

  const NeedFrameSupport := "Need stack frame support to dynamically determine context!"
  const NoPreviousFrame := "No previous stack frame found but needed to dynamically determine context!"

  /** A stack frame: its local variables and the frame of its caller, if any. */
  datatype Frame<V> = Frame(locals: map<string, V>, back: Option<Frame<V>>)

  /** Whether the frame, if any, has a caller. */
  predicate HasCaller<V>(frame: Option<Frame<V>>) {
    frame.Some? && frame.value.back.Some?
  }

  /** `determine_context(context, current_frame)`: a non-empty context is kept; an empty one is
      replaced by the local variables of the caller of the current frame, and it is a RuntimeError
      when there is no current frame or it has no caller. */
  function DetermineContext<V>(context: map<string, V>, currentFrame: Option<Frame<V>>): (r: Result<map<string, V>>)
    ensures r.Err? <==> context == map[] && !HasCaller(currentFrame)
    ensures r.Ok? ==> r.value == if context != map[] then context else currentFrame.value.back.value.locals
    ensures r.Err? ==> r.error == RuntimeError(if currentFrame.None? then NeedFrameSupport else NoPreviousFrame)
  {
    if context != map[] then Ok(context)
    else if currentFrame.None? then Err(RuntimeError(NeedFrameSupport))
    else
      var previous := currentFrame.value.back;
      if previous.None? then Err(RuntimeError(NoPreviousFrame))
      else Ok(previous.value.locals)
  }

  /** Determining the context again from a non-empty result keeps it, whatever the frame: a
      schema's context, once determined, does not change. */
  lemma DetermineContextIsStable<V>(context: map<string, V>, currentFrame: Option<Frame<V>>, otherFrame: Option<Frame<V>>)
    requires DetermineContext(context, currentFrame).Ok?
    requires DetermineContext(context, currentFrame).value != map[]
    ensures DetermineContext(DetermineContext(context, currentFrame).value, otherFrame) == DetermineContext(context, currentFrame)
  {
  }

  /** A table class, whose instances all use the class's `connection`. */
  class TableClass<C> {
    var connection: C

    constructor (connection: C)
      ensures this.connection == connection
    {
      this.connection := connection;
    }
  }

  /** An instance of a table class. */
  class Table<C> {
    const cls: TableClass<C>

    constructor (cls: TableClass<C>)
      ensures this.cls == cls
    {
      this.cls := cls;
    }
  }

  /** `with replaced_connection_table(table, replacement) as t: block(t)`: the block works on a
      fresh instance of the table's class, which uses the replacement connection; afterwards, and
      also when the block raises, the class has its original connection back. The block is given
      by what it returns or raises for the connection it sees. */
  method ReplacedConnectionTable<C, T>(table: Table<C>, replacement: C, block: C -> Result<T>) returns (r: Result<T>)
    modifies table.cls
    ensures r == block(replacement)
    ensures table.cls.connection == old(table.cls.connection)
  {
    var tableCls := table.cls;
    var original := tableCls.connection;
    tableCls.connection := replacement;
    var instance := new Table(tableCls);
    r := block(instance.cls.connection);
    tableCls.connection := original;
  }
}
