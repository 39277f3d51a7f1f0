/** The index state kept inside a conversation's JSON payload, and marking it. A chunk
    is addressed by its id or, when it has none, by its index. */
module ChunkPayload {
  import opened Options

  datatype IndexState = Pending | Indexed | Failed

  /** The `chunk_id` entry of a chunk: missing, null, or text. */
  datatype IdField = Absent | Null | Text(value: string)

  /** An element of `index_chunks`; `index` is what the chunk's index entry converts to. */
  datatype Item =
    | NotAnObject
    | Chunk(id: IdField, index: Option<int>, state: Option<IndexState>, body: string)

  // ---- the index inside a chunk id ---------------------------------------------------

  predicate IsDigit(c: char) {
    '0' <= c <= '9'
  }

  function UpToColon(s: string): string {
    if s == "" || s[0] == ':' then "" else [s[0]] + UpToColon(s[1..])
  }

  function AfterColon(s: string): Option<string> {
    if s == "" then None else if s[0] == ':' then Some(s[1..]) else AfterColon(s[1..])
  }

  function Decimal(s: string): nat
    requires forall i :: 0 <= i < |s| ==> IsDigit(s[i])
  {
    if s == "" then 0
    else
      assert IsDigit(s[|s| - 1]);
      Decimal(s[..|s| - 1]) * 10 + (s[|s| - 1] as int - '0' as int)
  }

  /** The second colon-separated part, when it is all digits. */
  function ChunkIndexOf(chunkId: string): Option<nat> {
    var rest := AfterColon(chunkId);
    if rest.None? then None
    else
      var part := UpToColon(rest.value);
      if part != "" && (forall i :: 0 <= i < |part| ==> IsDigit(part[i])) then Some(Decimal(part)) else None
  }

  // ---- which chunks a list of ids means ---------------------------------------------

  datatype IdentitySet = IdentitySet(ids: set<string>, indexes: set<int>) {
    predicate Matches(chunk: Item)
      requires chunk.Chunk?
    {
      if IdString(chunk.id) != "" then IdString(chunk.id) in ids
      else chunk.index.Some? && chunk.index.value in indexes
    }
  }

  /** Python's `str` of the id entry: a null becomes the text "None". */
  function IdString(id: IdField): string {
    match id
    case Absent => ""
    case Null => "None"
    case Text(value) => value
  }

  predicate IdIsFalsy(id: IdField) {
    id.Absent? || id.Null? || id.value == ""
  }

  function FromChunkIds(chunkIds: seq<string>): IdentitySet {
    IdentitySet(
      set id | id in chunkIds && id != "",
      set id | id in chunkIds && id != "" && ChunkIndexOf(id).Some? :: ChunkIndexOf(id).value as int)
  }

  /** For each index the first id that carries it. */
  function IdsByIndex(chunkIds: seq<string>): map<int, string> {
    if chunkIds == [] then map[]
    else
      var earlier := IdsByIndex(chunkIds[..|chunkIds| - 1]);
      var last := chunkIds[|chunkIds| - 1];
      var index := ChunkIndexOf(last);
      if index.Some? && index.value !in earlier then earlier[index.value := last] else earlier
  }

  /** Marking one chunk, for the chunks `targets` means and with the ids known by index. */
  function MarkWith(item: Item, targets: IdentitySet, byIndex: map<int, string>, state: IndexState): Item {
    if item.NotAnObject? || !targets.Matches(item) then item
    else
      var id := if IdIsFalsy(item.id) && item.index.Some? && item.index.value in byIndex
                then Text(byIndex[item.index.value]) else item.id;
      item.(id := id, state := Some(state))
  }

  function MarkItem(item: Item, chunkIds: seq<string>, state: IndexState): Item {
    MarkWith(item, FromChunkIds(chunkIds), IdsByIndex(chunkIds), state)
  }

  function MarkItems(items: seq<Item>, chunkIds: seq<string>, state: IndexState): (marked: seq<Item>)
    ensures |marked| == |items|
    ensures forall k :: 0 <= k < |items| ==> marked[k] == MarkItem(items[k], chunkIds, state)
  {
    if items == [] then [] else [MarkItem(items[0], chunkIds, state)] + MarkItems(items[1..], chunkIds, state)
  }

  lemma SameItems(a: seq<Item>, b: seq<Item>)
    requires |a| == |b| && forall k :: 0 <= k < |a| ==> a[k] == b[k]
    ensures a == b
  {
  }

  method FirstIdsByIndex(chunkIds: seq<string>) returns (output: map<int, string>)
    ensures output == IdsByIndex(chunkIds)
  {
    output := map[];
    var i := 0;
    while i < |chunkIds|
      invariant 0 <= i <= |chunkIds|
      invariant output == IdsByIndex(chunkIds[..i])
    {
      assert chunkIds[..i + 1][..i] == chunkIds[..i];
      var index := ChunkIndexOf(chunkIds[i]);
      if index.Some? && index.value !in output {
        output := output[index.value := chunkIds[i]];
      }
      i := i + 1;
    }
    assert chunkIds[..i] == chunkIds;
  }

  /** The payload's chunk list is None when it is not a list. */
  method UpdateIndexChunksPayload(chunks: Option<seq<Item>>, chunkIds: seq<string>, state: IndexState)
    returns (updated: Option<seq<Item>>)
    ensures updated == if chunks.Some? then Some(MarkItems(chunks.value, chunkIds, state)) else None
  {
    if chunks.None? {
      return None;
    }
    var targets := FromChunkIds(chunkIds);
    var byIndex := FirstIdsByIndex(chunkIds);
    var items := chunks.value;
    var out: seq<Item> := [];
    var i := 0;
    while i < |items|
      invariant 0 <= i <= |items|
      invariant |out| == i
      invariant forall k :: 0 <= k < i ==> out[k] == MarkWith(items[k], targets, byIndex, state)
    {
      var item := items[i];
      if item.Chunk? && targets.Matches(item) {
        if IdIsFalsy(item.id) && item.index.Some? && item.index.value in byIndex {
          item := item.(id := Text(byIndex[item.index.value]));
        }
        item := item.(state := Some(state));
      }
      out := out + [item];
      i := i + 1;
    }
    SameItems(out, MarkItems(items, chunkIds, state));
    return Some(out);
  }

  // ---- marking twice ----------------------------------------------------------------------

  /** The id filled in for an index is one of the ids, and carries that index. */
  lemma {:induction false} IdsByIndexSound(chunkIds: seq<string>, index: int)
    requires index in IdsByIndex(chunkIds)
    ensures var id := IdsByIndex(chunkIds)[index];
            id in chunkIds && id != "" && ChunkIndexOf(id) == Some(index)
    decreases |chunkIds|
  {
    var front := chunkIds[..|chunkIds| - 1];
    assert chunkIds == front + [chunkIds[|chunkIds| - 1]];
    if index in IdsByIndex(front) {
      IdsByIndexSound(front, index);
    }
  }

  lemma {:induction false} IdsByIndexComplete(chunkIds: seq<string>, id: string)
    requires id in chunkIds && ChunkIndexOf(id).Some?
    ensures (ChunkIndexOf(id).value as int) in IdsByIndex(chunkIds)
    decreases |chunkIds|
  {
    var front := chunkIds[..|chunkIds| - 1];
    assert chunkIds == front + [chunkIds[|chunkIds| - 1]];
    if id in front {
      IdsByIndexComplete(front, id);
    }
  }

  /** Filling in a missing id never changes which chunks the ids mean. */
  lemma MarkedStillMatches(item: Item, chunkIds: seq<string>, state: IndexState)
    requires item.Chunk? && FromChunkIds(chunkIds).Matches(item)
    ensures MarkItem(item, chunkIds, state).Chunk?
    ensures FromChunkIds(chunkIds).Matches(MarkItem(item, chunkIds, state))
    ensures item.id == Absent || item.id == Text("") ==> !IdIsFalsy(MarkItem(item, chunkIds, state).id)
  {
    var byIndex := IdsByIndex(chunkIds);
    if IdString(item.id) == "" {
      var id :| id in chunkIds && id != "" && ChunkIndexOf(id) == Some(item.index.value);
      IdsByIndexComplete(chunkIds, id);
    }
    if IdIsFalsy(item.id) && item.index.Some? && item.index.value in byIndex {
      IdsByIndexSound(chunkIds, item.index.value);
    }
  }

  /** The last state marked for a list of ids wins, whatever the chunks look like; marking
      again with the same state changes nothing, even after missing ids were filled in. */
  lemma LastMarkWins(items: seq<Item>, chunkIds: seq<string>, first: IndexState, second: IndexState)
    ensures MarkItems(MarkItems(items, chunkIds, first), chunkIds, second) == MarkItems(items, chunkIds, second)
  {
    forall k | 0 <= k < |items|
      ensures MarkItem(MarkItem(items[k], chunkIds, first), chunkIds, second) == MarkItem(items[k], chunkIds, second)
    {
      if items[k].Chunk? && FromChunkIds(chunkIds).Matches(items[k]) {
        MarkedStillMatches(items[k], chunkIds, first);
      }
    }
  }
}
