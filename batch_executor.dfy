/**
 * The batch executor: how one command of a batch resolves its timeout and
 * retry policy from the batch options over the global configuration, and
 * how it queues itself in the per-node entry of the batch instead of being
 * sent.
 */
module BatchExecutor {
  import opened Wrappers

  newtype int32 = x: int | -0x8000_0000 <= x < 0x8000_0000
  newtype int64 = x: int | -0x8000_0000_0000_0000 <= x < 0x8000_0000_0000_0000

  const Int32Max := 0x7fff_ffff

  /** x reduced to 32-bit two's complement. */
  function Wrap32(x: int): (r: int32)
    ensures (r as int - x) % 0x1_0000_0000 == 0
    ensures -0x8000_0000 <= x < 0x8000_0000 ==> r as int == x
  {
    var low := x % 0x1_0000_0000;
    if low < 0x8000_0000 then low as int32 else (low - 0x1_0000_0000) as int32
  }

  /** The (int) cast of a long: its low 32 bits. */
  function NarrowToInt(x: int64): int32 {
    Wrap32(x as int)
  }

  /** Java's int addition, which wraps around. */
  function AddInt(a: int32, b: int32): int32 {
    Wrap32(a as int + b as int)
  }

  /** A retry back-off policy; what it computes is outside the model. */
  datatype DelayStrategy = DelayStrategy(name: string)

  /** The global settings the connection manager's configuration supplies. */
  datatype Config = Config(timeout: int32, retryAttempts: int32, retryDelay: DelayStrategy)

  /** The options of one batch; retryDelay None stands for a null strategy. */
  datatype BatchOptions = BatchOptions(
    responseTimeout: int64,
    syncSlaves: int32,
    syncTimeout: int64,
    retryAttempts: int32,
    retryDelay: Option<DelayStrategy>)

  /** The timeout, built up as the source builds its local result. */
  function Timeout(config: Config, options: BatchOptions): (r: int32)
    ensures options.responseTimeout <= 0 && options.syncSlaves <= 0 ==> r == config.timeout
  {
    var base := if options.responseTimeout > 0 then NarrowToInt(options.responseTimeout) else config.timeout;
    if options.syncSlaves > 0 then AddInt(base, NarrowToInt(options.syncTimeout)) else base
  }

  /**
   * When the values fit in an int, the timeout is R + S, R, T + S or T:
   * the response timeout R replaces the global T when positive, and the
   * sync timeout S is added on top when replicas must acknowledge.
   */
  lemma TimeoutComposition(config: Config, options: BatchOptions)
    requires options.responseTimeout <= Int32Max as int64
    requires options.syncSlaves > 0 ==> -0x8000_0000 <= options.syncTimeout <= Int32Max as int64
    requires var base := if options.responseTimeout > 0 then options.responseTimeout as int else config.timeout as int;
      options.syncSlaves > 0 ==> -0x8000_0000 <= base + options.syncTimeout as int <= Int32Max
    ensures Timeout(config, options) as int
         == (if options.responseTimeout > 0 then options.responseTimeout as int else config.timeout as int)
          + (if options.syncSlaves > 0 then options.syncTimeout as int else 0)
  {
  }

  /** The batch's back-off policy when it has one, the global one otherwise. */
  function RetryInterval(config: Config, options: BatchOptions): (r: DelayStrategy)
    ensures options.retryDelay.Some? ==> r == options.retryDelay.value
    ensures options.retryDelay.None? ==> r == config.retryDelay
  {
    if options.retryDelay.Some? then options.retryDelay.value else config.retryDelay
  }

  /** The batch's attempt count when it is set (not negative), the global one otherwise. */
  function RetryAttempts(config: Config, options: BatchOptions): (r: int32)
    ensures options.retryAttempts >= 0 ==> r == options.retryAttempts
    ensures options.retryAttempts < 0 ==> r == config.retryAttempts
    ensures config.retryAttempts >= 0 ==> r >= 0
  {
    if options.retryAttempts >= 0 then options.retryAttempts else config.retryAttempts
  }

  /** Options that set nothing leave the global policy as it is. */
  lemma UnsetOptionsKeepGlobals(config: Config, options: BatchOptions)
    requires options.responseTimeout <= 0 && options.syncSlaves <= 0
    requires options.retryAttempts < 0 && options.retryDelay.None?
    ensures Timeout(config, options) == config.timeout
    ensures RetryAttempts(config, options) == config.retryAttempts
    ensures RetryInterval(config, options) == config.retryDelay
  {
  }

  /** Opaque handles for what a queued command carries along. */
  datatype NodeSource = NodeSource(id: string)
  datatype Codec = Codec(name: string)
  datatype RedisCommand = RedisCommand(name: string)
  datatype Promise = Promise(id: nat)
  type Param = string

  /** One queued command with its batch-wide sequence number. */
  datatype BatchCommandData = BatchCommandData(promise: Promise, codec: Codec, command: RedisCommand, params: seq<Param>, index: int)

  /** The per-node accumulator: a read-only flag and the queued commands in order. */
  datatype Entry = Entry(readOnlyMode: bool, commands: seq<BatchCommandData>)

  /** A freshly created entry is read-only and empty. */
  const NewEntry := Entry(true, [])

  /** One call of addBatchCommandData, as the log of the batch records it. */
  datatype Add = Add(source: NodeSource, readOnly: bool)

  function Indices(cmds: seq<BatchCommandData>): (r: seq<int>)
    ensures |r| == |cmds| && forall i :: 0 <= i < |cmds| ==> r[i] == cmds[i].index
  {
    seq(|cmds|, i requires 0 <= i < |cmds| => cmds[i].index)
  }

  /** The sequence numbers (1-based positions in the log) of the adds to source, in order. */
  function Positions(log: seq<Add>, source: NodeSource): seq<int> {
    if log == [] then []
    else Positions(log[..|log| - 1], source) + (if log[|log| - 1].source == source then [|log|] else [])
  }

  /** Whether every add to source so far was read-only. */
  function AllReadOnly(log: seq<Add>, source: NodeSource): bool {
    if log == [] then true
    else AllReadOnly(log[..|log| - 1], source) && (log[|log| - 1].source == source ==> log[|log| - 1].readOnly)
  }

  function Sources(log: seq<Add>): set<NodeSource> {
    set a | a in log :: a.source
  }

  ghost predicate StrictlyIncreasing(s: seq<int>) {
    forall i, j :: 0 <= i < j < |s| ==> s[i] < s[j]
  }

  /** The positions of source's adds rise strictly and are exactly the positions in the log that name source. */
  lemma {:induction false} PositionsExact(log: seq<Add>, source: NodeSource)
    ensures var ps := Positions(log, source);
      && StrictlyIncreasing(ps)
      && (forall p :: p in ps <==> 1 <= p <= |log| && log[p - 1].source == source)
  {
    if log != [] {
      var init := log[..|log| - 1];
      PositionsExact(init, source);
      assert forall k :: 0 <= k < |init| ==> log[k] == init[k];
      var p0 := Positions(init, source);
      if log[|log| - 1].source == source {
        var ps := p0 + [|log|];
        forall i, j | 0 <= i < j < |ps| ensures ps[i] < ps[j] {
          if j == |ps| - 1 {
            assert ps[i] in p0;
          }
        }
      }
    }
  }

  lemma PositionsSnoc(log: seq<Add>, a: Add, source: NodeSource)
    ensures Positions(log + [a], source) == Positions(log, source) + (if a.source == source then [|log| + 1] else [])
    ensures AllReadOnly(log + [a], source) == (AllReadOnly(log, source) && (a.source == source ==> a.readOnly))
  {
    assert (log + [a])[..|log|] == log;
  }

  /** A node no add has named has no positions and counts as read-only. */
  lemma {:induction false} AbsentSource(log: seq<Add>, source: NodeSource)
    requires source !in Sources(log)
    ensures Positions(log, source) == [] && AllReadOnly(log, source)
  {
    if log != [] {
      var init := log[..|log| - 1];
      assert forall a :: a in init ==> a in log;
      AbsentSource(init, source);
    }
  }

  /** An entry is read-only exactly when every add to its node was read-only. */
  lemma {:induction false} AllReadOnlyExact(log: seq<Add>, source: NodeSource)
    ensures AllReadOnly(log, source) <==> forall k :: 0 <= k < |log| && log[k].source == source ==> log[k].readOnly
  {
    if log != [] {
      var init := log[..|log| - 1];
      AllReadOnlyExact(init, source);
      assert forall k :: 0 <= k < |init| ==> log[k] == init[k];
    }
  }

  /**
   * The entries are what the adds in log built: one entry per node named,
   * holding that node's sequence numbers in order, read-only as long as
   * every add to it was.
   */
  ghost predicate Consistent(commands: map<NodeSource, Entry>, log: seq<Add>) {
    && commands.Keys == Sources(log)
    && forall s :: s in commands ==>
         Indices(commands[s].commands) == Positions(log, s) && commands[s].readOnlyMode == AllReadOnly(log, s)
  }

  /** The entry an add to source leaves behind, given the entries before it. */
  function Added(commands: map<NodeSource, Entry>, source: NodeSource, readOnly: bool, data: BatchCommandData): map<NodeSource, Entry> {
    var before := if source in commands then commands[source] else NewEntry;
    commands[source := Entry(before.readOnlyMode && readOnly, before.commands + [data])]
  }

  lemma AddedConsistent(commands: map<NodeSource, Entry>, log: seq<Add>, source: NodeSource, readOnly: bool, data: BatchCommandData)
    requires Consistent(commands, log) && data.index == |log| + 1
    ensures Consistent(Added(commands, source, readOnly, data), log + [Add(source, readOnly)])
  {
    var log' := log + [Add(source, readOnly)];
    var added := Added(commands, source, readOnly, data);
    assert Sources(log') == Sources(log) + {source};
    forall s | s in added
      ensures Indices(added[s].commands) == Positions(log', s) && added[s].readOnlyMode == AllReadOnly(log', s)
    {
      AddedEntry(commands, log, source, readOnly, data, s);
    }
  }

  /** The add keeps one node's entry equal to what the log built for it. */
  lemma AddedEntry(commands: map<NodeSource, Entry>, log: seq<Add>, source: NodeSource, readOnly: bool, data: BatchCommandData, s: NodeSource)
    requires Consistent(commands, log) && data.index == |log| + 1
    requires s in commands || s == source
    ensures var added := Added(commands, source, readOnly, data)[s];
      && Indices(added.commands) == Positions(log + [Add(source, readOnly)], s)
      && added.readOnlyMode == AllReadOnly(log + [Add(source, readOnly)], s)
  {
    PositionsSnoc(log, Add(source, readOnly), s);
    if s == source {
      var before := if source in commands then commands[source] else NewEntry;
      if source !in commands {
        AbsentSource(log, source);
      }
      assert Indices(before.commands + [data]) == Indices(before.commands) + [data.index];
    }
  }

  /** The batch-wide shared state: the entry per node, the sequence counter and the executed flag. */
  class BatchState {
    var commands: map<NodeSource, Entry>
    var index: int
    /** Stored for the flush, which is outside the model; never read here. */
    var executed: bool
    /** Every add so far, oldest first. */
    ghost var log: seq<Add>

    ghost predicate Valid()
      reads this
    {
      index == |log| && Consistent(commands, log)
    }

    constructor ()
      ensures Valid() && commands == map[] && index == 0 && !executed && log == []
    {
      commands := map[];
      index := 0;
      executed := false;
      log := [];
    }
  }

  /**
   * Every command queued in the batch carries a distinct sequence number
   * between 1 and the counter: within one entry they rise strictly, across
   * entries they never repeat, and each number up to the counter belongs to
   * exactly the entry whose add took it.  An entry is read-only exactly
   * when every command added to it came from a read-only executor.
   */
  lemma BatchIndicesDistinct(state: BatchState)
    requires state.Valid()
    ensures forall s :: s in state.commands ==>
      && StrictlyIncreasing(Indices(state.commands[s].commands))
      && (forall i :: i in Indices(state.commands[s].commands) ==> 1 <= i <= state.index)
    ensures forall s1, s2, i ::
      s1 in state.commands && s2 in state.commands && s1 != s2 && i in Indices(state.commands[s1].commands)
      ==> i !in Indices(state.commands[s2].commands)
    ensures forall k :: 0 <= k < state.index ==>
      state.log[k].source in state.commands && k + 1 in Indices(state.commands[state.log[k].source].commands)
    ensures forall s :: s in state.commands ==>
      (state.commands[s].readOnlyMode <==> forall k :: 0 <= k < |state.log| && state.log[k].source == s ==> state.log[k].readOnly)
  {
    forall s | s in state.commands
      ensures StrictlyIncreasing(Positions(state.log, s))
      ensures forall p :: p in Positions(state.log, s) <==> 1 <= p <= |state.log| && state.log[p - 1].source == s
      ensures AllReadOnly(state.log, s) <==> forall k :: 0 <= k < |state.log| && state.log[k].source == s ==> state.log[k].readOnly
    {
      PositionsExact(state.log, s);
      AllReadOnlyExact(state.log, s);
    }
    forall k | 0 <= k < state.index
      ensures state.log[k].source in state.commands && k + 1 in Indices(state.commands[state.log[k].source].commands)
    {
      var s := state.log[k].source;
      assert s in Sources(state.log);
      PositionsExact(state.log, s);
    }
  }

  class RedisBatchExecutor {
    const readOnlyMode: bool
    const source: NodeSource
    const codec: Codec
    const command: RedisCommand
    const params: seq<Param>
    const mainPromise: Promise
    /** The executor's codec resolution, which is outside the model. */
    const getCodec: Codec -> Codec
    const state: BatchState
    const options: BatchOptions
    /** The policy resolved once, at construction. */
    const retryAttempts: int32
    const retryDelay: DelayStrategy
    const timeout: int32

    constructor (readOnlyMode: bool, source: NodeSource, codec: Codec, command: RedisCommand, params: seq<Param>,
                 mainPromise: Promise, getCodec: Codec -> Codec, config: Config, state: BatchState, options: BatchOptions)
      ensures this.readOnlyMode == readOnlyMode && this.source == source && this.codec == codec
      ensures this.command == command && this.params == params && this.mainPromise == mainPromise
      ensures this.getCodec == getCodec && this.state == state && this.options == options
      ensures retryAttempts == RetryAttempts(config, options)
      ensures retryDelay == RetryInterval(config, options)
      ensures timeout == Timeout(config, options)
    {
      this.readOnlyMode := readOnlyMode;
      this.source := source;
      this.codec := codec;
      this.command := command;
      this.params := params;
      this.mainPromise := mainPromise;
      this.getCodec := getCodec;
      this.state := state;
      this.options := options;
      retryAttempts := RetryAttempts(config, options);
      retryDelay := RetryInterval(config, options);
      timeout := Timeout(config, options);
    }

    /**
     * Queue this executor's command: find or create the entry for its node,
     * clear the entry's read-only flag unless this executor is read-only,
     * take the next sequence number and append the command.  Other entries
     * stay as they were.
     */
    method AddBatchCommandData(batchParams: seq<Param>)
      requires state.Valid() && state.index < Int32Max
      modifies state
      ensures state.Valid()
      ensures state.log == old(state.log) + [Add(source, readOnlyMode)]
      ensures state.index == old(state.index) + 1
      ensures state.executed == old(state.executed)
      ensures state.commands
           == Added(old(state.commands), source, readOnlyMode, BatchCommandData(mainPromise, getCodec(codec), command, batchParams, state.index))
    {
      ghost var commands0, log0 := state.commands, state.log;
      // computeIfAbsent: the node's entry, or a fresh read-only one
      var entry := if source in state.commands then state.commands[source] else NewEntry;
      if !readOnlyMode {
        entry := entry.(readOnlyMode := false);
      }
      var codecToUse := getCodec(codec);
      state.index := state.index + 1;
      var commandData := BatchCommandData(mainPromise, codecToUse, command, batchParams, state.index);
      state.commands := state.commands[source := entry.(commands := entry.commands + [commandData])];
      state.log := state.log + [Add(source, readOnlyMode)];
      AddedConsistent(commands0, log0, source, readOnlyMode, commandData);
    }
  }

  /**
   * Commands A for node1 (from a writing executor), B for node2 and C for
   * node1 (both read-only), added in that order to an empty batch and so
   * numbered 1, 2 and 3: node1's entry holds A then C and is no longer
   * read-only, node2's holds B and stays read-only, and no other node has
   * an entry.
   */
  lemma OrderingScenario(node1: NodeSource, node2: NodeSource, da: BatchCommandData, db: BatchCommandData, dc: BatchCommandData)
    requires node1 != node2
    requires da.index == 1 && db.index == 2 && dc.index == 3
    ensures var m := Added(Added(Added(map[], node1, false, da), node2, true, db), node1, true, dc);
      && m.Keys == {node1, node2}
      && m[node1] == Entry(false, [da, dc]) && Indices(m[node1].commands) == [1, 3]
      && m[node2] == Entry(true, [db]) && Indices(m[node2].commands) == [2]
  {
    var m1 := Added(map[], node1, false, da);
    assert m1[node1] == Entry(false, [da]);
    var m2 := Added(m1, node2, true, db);
    assert m2[node1] == m1[node1];
  }
}
