/** Memory blocks under the memory-editing tools
    (letta/agent.py:191-234, 1618-1626, 1688-1703; letta/schemas/memory.py:746-761). */
module AgentBlocks {
  import opened Wrappers

  datatype Block = Block(id: string, name: string, value: string, readOnly: bool)

  type Memory = seq<Block>

  /** What a memory tool does to its deep copy of the memory: it raises, or leaves this. */
  datatype ToolEdit = Raises | Leaves(memory: Memory)

  datatype Error = ReadOnlyBlockEdited | NoSuchBlock | ToolRaised

  /** Memory.get_block: the first block of that label; None for the KeyError. */
  function GetBlock(memory: Memory, name: string): (r: Option<Block>)
    ensures r.Some? ==> r.value in memory && r.value.name == name
    ensures r.None? ==> forall b <- memory :: b.name != name
  {
    if memory == [] then None
    else if memory[0].name == name then Some(memory[0])
    else GetBlock(memory[1..], name)
  }

  predicate DistinctBlocks(memory: Memory) {
    forall i, j :: 0 <= i < j < |memory| ==> memory[i].name != memory[j].name && memory[i].id != memory[j].id
  }

  lemma {:induction false} GetOwnBlock(memory: Memory, b: Block)
    requires DistinctBlocks(memory) && b in memory
    ensures GetBlock(memory, b.name) == Some(b)
    decreases memory
  {
    if memory[0] != b {
      assert b in memory[1..];
      var i :| 0 <= i < |memory| && memory[i] == b;
      assert memory[0].name != memory[i].name;
      GetOwnBlock(memory[1..], b);
    }
  }

  class MemoryAgent {
    var blocks: Memory
    /** The block table. */
    var store: map<string, Block>

    /** Every block of the agent is stored under its id, with its label and flag, and read-only
        blocks with their value. */
    ghost predicate Valid()
      reads this
    {
      DistinctBlocks(blocks) && Stored(blocks, store)
    }

    /** ensure_read_only_block_not_modified */
    method EnsureReadOnlyBlockNotModified(newMemory: Memory) returns (error: Option<Error>)
      requires Valid()
      ensures error == None <==> ReadOnlyKept(blocks, newMemory)
      ensures error == None <==> forall b <- blocks :: b.readOnly ==>
        GetBlock(newMemory, b.name).Some? && GetBlock(newMemory, b.name).value.value == b.value
      ensures error.Some? ==> exists k :: 0 <= k < |blocks| && FirstEdited(blocks, newMemory, k, error.value)
    {
      for k := 0 to |blocks|
        invariant forall b <- blocks[..k] :: b.readOnly ==> KeepsValue(b, newMemory)
      {
        var name := blocks[k].name;
        GetOwnBlock(blocks, blocks[k]);
        var current := GetBlock(blocks, name).value;
        if current.readOnly {
          var changed := GetBlock(newMemory, name);
          assert changed == None ==> FirstEdited(blocks, newMemory, k, NoSuchBlock);
          if changed == None { return Some(NoSuchBlock); }
          assert changed.value.value != current.value ==> FirstEdited(blocks, newMemory, k, ReadOnlyBlockEdited);
          if changed.value.value != current.value { return Some(ReadOnlyBlockEdited); }
        }
      }
      assert blocks[..|blocks|] == blocks;
      error := None;
    }

    /** The loop over the labels: write what changed.  It raises half way when the new memory
        lacks a block. */
    method WriteChangedBlocks(newMemory: Memory) returns (error: Option<Error>, ghost n: nat)
      requires Valid()
      modifies this`store
      ensures n <= |blocks| && WrittenUpTo(blocks, newMemory, old(store), store, n)
      ensures error == None ==> n == |blocks|
      ensures error.Some? ==> error == Some(NoSuchBlock) && n < |blocks| && GetBlock(newMemory, blocks[n].name) == None
    {
      ghost var before := store;
      n := 0;
      for k := 0 to |blocks|
        invariant n == k && WrittenUpTo(blocks, newMemory, before, store, k)
      {
        var name := blocks[k].name;
        var updated := GetBlock(newMemory, name);
        if updated == None { return Some(NoSuchBlock), k; }
        GetOwnBlock(blocks, blocks[k]);
        WrittenOneMore(blocks, newMemory, before, store, k);
        if updated.value.value != GetBlock(blocks, name).value.value {
          var id := blocks[k].id;
          store := store[id := store[id].(value := updated.value.value)];
        }
        n := k + 1;
      }
      error := None;
    }

    /** update_memory_if_changed, given whether the new memory already stands in the prompt. */
    method UpdateMemoryIfChanged(newMemory: Memory, inPrompt: bool) returns (r: Result<bool, Error>)
      requires Valid() && ReadOnlyKept(blocks, newMemory)
      modifies this
      ensures Valid() && ReadOnlyUntouched(old(blocks), old(store), blocks, store)
      ensures WrittenOnlyWhereChanged(old(blocks), newMemory, old(store), store)
      ensures inPrompt <==> r == Ok(false)
      ensures inPrompt ==> blocks == old(blocks) && store == old(store)
      ensures r.Ok? && !inPrompt ==> Refreshed(old(blocks), newMemory, blocks, store) && WrittenThrough(old(blocks), newMemory, old(store), store)
      ensures r.Err? <==> !inPrompt && LacksBlock(newMemory, old(blocks))
      ensures r.Err? ==> r == Err(NoSuchBlock) && blocks == old(blocks)
    {
      if inPrompt { return Ok(false); }
      ghost var before, was := store, blocks;
      var error;
      ghost var n;
      error, n := WriteChangedBlocks(newMemory);
      WritingIsSafe(was, newMemory, before, store, n);
      assert error.Some? ==> blocks[n] in blocks;
      if error.Some? { return Err(error.value); }
      AllWritten(was, newMemory, before, store);
      blocks := Reread(blocks, store);
      RereadIsSafe(was, newMemory, before, store);
      r := Ok(true);
    }

    /** The memory branch of execute_tool_and_persist_state: the tool edits a copy, and the copy is
        checked before anything is written. */
    method ExecuteMemoryTool(edit: ToolEdit, inPrompt: bool) returns (error: Option<Error>)
      requires Valid()
      modifies this
      ensures Valid() && ReadOnlyUntouched(old(blocks), old(store), blocks, store)
      ensures error.Some? <==>
        edit.Raises? || !ReadOnlyKept(old(blocks), edit.memory) || (!inPrompt && LacksBlock(edit.memory, old(blocks)))
      ensures edit.Raises? ==> error == Some(ToolRaised)
      ensures edit.Leaves? ==> error != Some(ToolRaised) && (error == Some(ReadOnlyBlockEdited) ==> !ReadOnlyKept(old(blocks), edit.memory))
      ensures edit.Raises? || !ReadOnlyKept(old(blocks), edit.memory) ==> blocks == old(blocks) && store == old(store)
      ensures edit.Leaves? ==> WrittenOnlyWhereChanged(old(blocks), edit.memory, old(store), store)
      ensures error == None && !inPrompt ==>
        edit.Leaves? && Refreshed(old(blocks), edit.memory, blocks, store) && WrittenThrough(old(blocks), edit.memory, old(store), store)
    {
      match edit
      case Raises => error := Some(ToolRaised);
      case Leaves(memory) =>
        error := EnsureReadOnlyBlockNotModified(memory);
        if error == None {
          var updated := UpdateMemoryIfChanged(memory, inPrompt);
          if updated.Err? { error := Some(updated.error); }
        }
    }

    /** The refresh at the start of a step: the stored blocks are read and compared, and what
        is written back is what was there. */
    method RefreshFromStore(inPrompt: bool) returns (updated: bool)
      requires Valid()
      modifies this
      ensures Valid() && store == old(store) && ReadOnlyUntouched(old(blocks), old(store), blocks, store)
      ensures updated == !inPrompt && |blocks| == |old(blocks)|
      ensures forall i :: 0 <= i < |blocks| ==>
        old(blocks)[i].id in store && blocks[i] == if inPrompt then old(blocks)[i] else store[old(blocks)[i].id]
    {
      ghost var was, before := blocks, store;
      assert forall b <- blocks :: IsStored(b, store);
      var persisted := Reread(blocks, store);
      PersistedBlocks(blocks, persisted, store);
      var r := UpdateMemoryIfChanged(persisted, inPrompt);
      NothingNewWritten(was, persisted, before, blocks, store, inPrompt);
      updated := r.value;
    }

    /** Another agent writes a stored block, unless it is read-only. */
    method WriteElsewhere(id: string, value: string)
      requires Valid()
      modifies this`store
      ensures Valid() && ReadOnlyUntouched(blocks, old(store), blocks, store)
      ensures store == if id in old(store) && !old(store)[id].readOnly then old(store)[id := old(store)[id].(value := value)] else old(store)
    {
      assert forall i :: 0 <= i < |blocks| ==> blocks[i] in blocks && IsStored(blocks[i], store);
      if id in store && !store[id].readOnly {
        store := store[id := store[id].(value := value)];
      }
    }

    /** Any sequence of refreshes, memory tools and writes elsewhere, as it happens in a run. */
    method RunMemorySteps(steps: seq<MemoryStep>) returns (errors: seq<Option<Error>>)
      requires Valid()
      modifies this
      ensures Valid() && |errors| == |steps|
      ensures forall k :: 0 <= k < |steps| ==>
        (!steps[k].MemoryTool? ==> errors[k] == None) && (steps[k].MemoryTool? && steps[k].edit.Raises? ==> errors[k] == Some(ToolRaised))
      ensures ReadOnlyUntouched(old(blocks), old(store), blocks, store)
    {
      errors := [];
      for k := 0 to |steps|
        invariant Valid() && |errors| == k
        invariant forall j :: 0 <= j < k ==>
          (!steps[j].MemoryTool? ==> errors[j] == None) && (steps[j].MemoryTool? && steps[j].edit.Raises? ==> errors[j] == Some(ToolRaised))
        invariant ReadOnlyUntouched(old(blocks), old(store), blocks, store)
      {
        ghost var blocksNow, storeNow := blocks, store;
        var error := None;
        match steps[k] {
          case Refresh(inPrompt) => var _ := RefreshFromStore(inPrompt);
          case MemoryTool(edit, inPrompt) => error := ExecuteMemoryTool(edit, inPrompt);
          case WrittenElsewhere(id, value) => WriteElsewhere(id, value);
        }
        UntouchedTwice(old(blocks), old(store), blocksNow, storeNow, blocks, store);
        errors := errors + [error];
      }
    }
  }

  /** What happens to the memory in a run: a step starts, a tool edits, another agent writes a
      shared block that may be edited. */
  datatype MemoryStep = Refresh(inPrompt: bool) | MemoryTool(edit: ToolEdit, inPrompt: bool) | WrittenElsewhere(id: string, value: string)

  ghost predicate LacksBlock(newMemory: Memory, memory: Memory) {
    exists b <- memory :: GetBlock(newMemory, b.name) == None
  }

  /** The stored blocks of an agent are found under its labels, read-only ones unchanged. */
  lemma PersistedBlocks(memory: Memory, persisted: Memory, store: map<string, Block>)
    requires DistinctBlocks(memory) && Stored(memory, store)
    requires |persisted| == |memory| && forall i :: 0 <= i < |memory| ==> memory[i].id in store && persisted[i] == store[memory[i].id]
    ensures forall b <- memory :: b.id in store && GetBlock(persisted, b.name) == Some(store[b.id])
    ensures ReadOnlyKept(memory, persisted) && !LacksBlock(persisted, memory)
  {
    forall i | 0 <= i < |memory| ensures persisted[i] == memory[i].(value := persisted[i].value) {
      assert memory[i] in memory && IsStored(memory[i], store);
    }
    forall b <- memory ensures b.id in store && GetBlock(persisted, b.name) == Some(store[b.id]) {
      var i :| 0 <= i < |memory| && memory[i] == b;
      GetOwnBlock(persisted, persisted[i]);
      assert IsStored(b, store);
    }
  }

  /** Values read from the store and written to it leave it as it is. */
  lemma NothingNewWritten(was: Memory, persisted: Memory, before: map<string, Block>, now: Memory, after: map<string, Block>, inPrompt: bool)
    requires DistinctBlocks(was) && Stored(was, before) && Stored(now, after)
    requires forall b <- was :: b.id in before && GetBlock(persisted, b.name) == Some(before[b.id])
    requires WrittenOnlyWhereChanged(was, persisted, before, after)
    requires if inPrompt then now == was && after == before else Refreshed(was, persisted, now, after)
    requires ReadOnlyUntouched(was, before, now, after)
    ensures after == before
    ensures |now| == |was| && forall i :: 0 <= i < |now| ==> was[i].id in after && (inPrompt || now[i] == after[was[i].id])
  {
    assert forall id <- before.Keys :: after[id] == before[id];
  }

  /** The first read-only block that is not as it was is missing, or has another value. */
  predicate FirstEdited(memory: Memory, newMemory: Memory, k: nat, error: Error)
    requires k < |memory|
  {
    var now := GetBlock(newMemory, memory[k].name);
    && memory[k].readOnly && ReadOnlyKept(memory[..k], newMemory)
    && (now == None ==> error == NoSuchBlock)
    && (now.Some? ==> now.value.value != memory[k].value && error == ReadOnlyBlockEdited)
  }

  /** Reading the blocks again by id. */
  function Reread(memory: Memory, store: map<string, Block>): (r: Memory)
    requires forall b <- memory :: b.id in store
    ensures |r| == |memory|
  {
    seq(|memory|, i requires 0 <= i < |memory| && memory[i].id in store => store[memory[i].id])
  }

  /** The in-memory blocks are the stored ones, and every label whose value changed holds the
      new value. */
  ghost predicate Refreshed(was: Memory, newMemory: Memory, now: Memory, store: map<string, Block>) {
    && |now| == |was|
    && forall i :: 0 <= i < |was| ==>
      && now[i].id == was[i].id && now[i].name == was[i].name
      && now[i].id in store && store[now[i].id] == now[i]
      && (!KeepsValue(was[i], newMemory) ==>
            GetBlock(newMemory, was[i].name).Some? && now[i].value == GetBlock(newMemory, was[i].name).value.value)
  }

  /** A block whose value in the new memory is another is stored with that value, any other block as
      it was; nothing else of the store changes. */
  ghost predicate WrittenThrough(was: Memory, newMemory: Memory, before: map<string, Block>, after: map<string, Block>) {
    && after.Keys == before.Keys
    && (forall b <- was :: b.id in before && GetBlock(newMemory, b.name).Some?
          && after[b.id] == before[b.id].(value :=
               if GetBlock(newMemory, b.name).value.value != b.value then GetBlock(newMemory, b.name).value.value else before[b.id].value))
    && (forall id <- before.Keys :: (forall b <- was :: b.id != id) ==> after[id] == before[id])
  }

  lemma AllWritten(memory: Memory, newMemory: Memory, before: map<string, Block>, after: map<string, Block>)
    requires Stored(memory, before) && WrittenUpTo(memory, newMemory, before, after, |memory|)
    ensures WrittenThrough(memory, newMemory, before, after)
  {
    forall b <- memory
      ensures b.id in before && GetBlock(newMemory, b.name).Some?
      ensures after[b.id] == before[b.id].(value :=
        if GetBlock(newMemory, b.name).value.value != b.value then GetBlock(newMemory, b.name).value.value else before[b.id].value)
    {
      var i :| 0 <= i < |memory| && memory[i] == b;
      assert IsStored(b, before);
    }
  }

  /** The agent's blocks are stored as they are, but perhaps for the value of editable ones. */
  ghost predicate Stored(memory: Memory, store: map<string, Block>) {
    forall b <- memory :: IsStored(b, store)
  }

  ghost predicate IsStored(b: Block, store: map<string, Block>) {
    b.id in store && store[b.id] == b.(value := store[b.id].value) && (b.readOnly ==> store[b.id].value == b.value)
  }

  ghost predicate WrittenUpTo(memory: Memory, newMemory: Memory, before: map<string, Block>, after: map<string, Block>, n: nat)
    requires Stored(memory, before)
  {
    && after.Keys == before.Keys
    && (forall i :: 0 <= i < |memory| ==>
          && memory[i] in memory && IsStored(memory[i], before)
          && after[memory[i].id] == if i < n then Written(before, memory[i], newMemory) else before[memory[i].id])
    && (forall i :: 0 <= i < n && i < |memory| ==> GetBlock(newMemory, memory[i].name).Some?)
    && (forall id <- before.Keys :: (forall b <- memory :: b.id != id) ==> after[id] == before[id])
  }

  /** One more turn of the loop: the block still is as before, and now what it should be. */
  lemma WrittenOneMore(memory: Memory, newMemory: Memory, before: map<string, Block>, now: map<string, Block>, k: nat)
    requires DistinctBlocks(memory) && Stored(memory, before) && k < |memory|
    requires WrittenUpTo(memory, newMemory, before, now, k) && GetBlock(newMemory, memory[k].name).Some?
    ensures memory[k].id in now
    ensures var b, value := memory[k], GetBlock(newMemory, memory[k].name).value.value;
            WrittenUpTo(memory, newMemory, before, if value != b.value then now[b.id := now[b.id].(value := value)] else now, k + 1)
  {
    assert memory[k] in memory && IsStored(memory[k], before);
    forall i | 0 <= i < |memory| && i != k ensures memory[i].id != memory[k].id {
      if i < k { assert memory[i].id != memory[k].id; } else { assert memory[k].id != memory[i].id; }
    }
  }

  lemma WritingIsSafe(memory: Memory, newMemory: Memory, before: map<string, Block>, after: map<string, Block>, n: nat)
    requires DistinctBlocks(memory) && Stored(memory, before) && ReadOnlyKept(memory, newMemory)
    requires WrittenUpTo(memory, newMemory, before, after, n)
    ensures Stored(memory, after) && ReadOnlyUntouched(memory, before, memory, after)
    ensures WrittenOnlyWhereChanged(memory, newMemory, before, after)
  {
    forall b <- memory ensures IsStored(b, after) && (b.readOnly ==> after[b.id] == before[b.id]) {
      var i :| 0 <= i < |memory| && memory[i] == b;
      assert IsStored(b, before) && (b.readOnly ==> KeepsValue(b, newMemory));
    }
    forall id <- before.Keys | after[id] != before[id]
      ensures exists b <- memory :: b.id == id && GetBlock(newMemory, b.name).Some? && !KeepsValue(b, newMemory)
    {
      var b :| b in memory && b.id == id;
      var i :| 0 <= i < |memory| && memory[i] == b;
    }
  }

  lemma RereadIsSafe(memory: Memory, newMemory: Memory, before: map<string, Block>, store: map<string, Block>)
    requires DistinctBlocks(memory) && Stored(memory, before) && Stored(memory, store)
    requires ReadOnlyUntouched(memory, before, memory, store)
    requires WrittenUpTo(memory, newMemory, before, store, |memory|)
    ensures var now := Reread(memory, store);
            && DistinctBlocks(now) && Stored(now, store)
            && ReadOnlyUntouched(memory, before, now, store)
            && Refreshed(memory, newMemory, now, store)
  {
    var now := Reread(memory, store);
    forall i | 0 <= i < |memory| ensures now[i] == memory[i].(value := now[i].value) {
      assert IsStored(memory[i], store);
    }
    forall b <- now ensures IsStored(b, store) {
      var i :| 0 <= i < |now| && now[i] == b;
      assert IsStored(memory[i], store);
    }
  }

  /** The same value in the new memory. */
  predicate KeepsValue(b: Block, newMemory: Memory) {
    var now := GetBlock(newMemory, b.name);
    now.Some? && now.value.value == b.value
  }

  predicate ReadOnlyKept(memory: Memory, newMemory: Memory) {
    forall b <- memory :: b.readOnly ==> KeepsValue(b, newMemory)
  }

  /** What the loop leaves under a block's id. */
  function Written(before: map<string, Block>, b: Block, newMemory: Memory): Block
    requires b.id in before
  {
    var now := GetBlock(newMemory, b.name);
    if now.Some? && now.value.value != b.value then before[b.id].(value := now.value.value) else before[b.id]
  }

  /** Read-only blocks keep their stored value, their flag and their place. */
  ghost predicate ReadOnlyUntouched(before: Memory, storeBefore: map<string, Block>, after: Memory, storeAfter: map<string, Block>) {
    && |after| == |before| && storeAfter.Keys == storeBefore.Keys
    && forall i :: 0 <= i < |before| ==>
      && after[i].id == before[i].id && after[i].readOnly == before[i].readOnly
      && (before[i].readOnly && before[i].id in storeBefore ==> storeAfter[before[i].id] == storeBefore[before[i].id])
  }

  /** Nothing else is written than blocks of the agent whose value is another in the new memory. */
  ghost predicate WrittenOnlyWhereChanged(memory: Memory, newMemory: Memory, before: map<string, Block>, after: map<string, Block>) {
    && after.Keys == before.Keys
    && forall id <- before.Keys :: after[id] != before[id] ==>
      exists b <- memory :: b.id == id && GetBlock(newMemory, b.name).Some? && !KeepsValue(b, newMemory)
  }

  lemma UntouchedTwice(m0: Memory, s0: map<string, Block>, m1: Memory, s1: map<string, Block>, m2: Memory, s2: map<string, Block>)
    requires ReadOnlyUntouched(m0, s0, m1, s1) && ReadOnlyUntouched(m1, s1, m2, s2)
    ensures ReadOnlyUntouched(m0, s0, m2, s2)
  {
  }
}
