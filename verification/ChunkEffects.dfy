/** Which chunks a list of ids marks, what marking changes in a chunk, and the index inside a
    chunk id read back from the ids that the store itself makes. */
module ChunkEffects {
  import opened Options
  import opened ChunkPayload
  import opened Conversations

  // ---- decimal numbers ---------------------------------------------------------------------------

  lemma {:induction false} DecimalTextIsDigits(n: nat)
    ensures DecimalText(n) != "" && forall i :: 0 <= i < |DecimalText(n)| ==> '0' <= DecimalText(n)[i] <= '9'
    ensures DecimalText(n) == (if n < 10 then "" else DecimalText(n / 10)) + [DecimalText(n)[|DecimalText(n)| - 1]]
    ensures DecimalText(n)[|DecimalText(n)| - 1] as int == '0' as int + n % 10
  {
    if n >= 10 {
      DecimalTextIsDigits(n / 10);
    }
  }

  /** Reading a number back that was written. */
  lemma {:induction false} DecimalOfText(n: nat)
    ensures forall i :: 0 <= i < |DecimalText(n)| ==> IsDigit(DecimalText(n)[i])
    ensures Decimal(DecimalText(n)) == n
  {
    DecimalTextIsDigits(n);
    var text := DecimalText(n);
    if n < 10 {
      assert text[..|text| - 1] == "";
    } else {
      DecimalOfText(n / 10);
      assert text[..|text| - 1] == DecimalText(n / 10);
    }
  }

  // ---- the index inside an id ------------------------------------------------------------------------

  predicate NoColon(s: string) {
    forall i :: 0 <= i < |s| ==> s[i] != ':'
  }

  lemma {:induction false} UpToColonOf(a: string, rest: string)
    requires NoColon(a) && (rest == "" || rest[0] == ':')
    ensures UpToColon(a + rest) == a
    decreases |a|
  {
    if a == "" {
      assert a + rest == rest;
    } else {
      assert (a + rest)[1..] == a[1..] + rest;
      UpToColonOf(a[1..], rest);
    }
  }

  lemma {:induction false} AfterColonOf(a: string, rest: string)
    requires NoColon(a)
    ensures AfterColon(a + (":" + rest)) == Some(rest)
    decreases |a|
  {
    if a == "" {
      assert a + (":" + rest) == ":" + rest;
      assert (":" + rest)[1..] == rest;
    } else {
      assert (a + (":" + rest))[1..] == a[1..] + (":" + rest);
      AfterColonOf(a[1..], rest);
    }
  }

  lemma {:induction false} NoColonMeansNoIndex(s: string)
    requires NoColon(s)
    ensures ChunkIndexOf(s).None?
    decreases |s|
  {
    NothingAfter(s);
  }

  lemma {:induction false} NothingAfter(s: string)
    requires NoColon(s)
    ensures AfterColon(s).None?
    decreases |s|
  {
    if s != "" {
      NothingAfter(s[1..]);
    }
  }

  /** The index of an id is the number between its first colon and the next, or its end. */
  lemma IndexInId(a: string, n: nat, rest: string)
    requires NoColon(a) && (rest == "" || rest[0] == ':')
    ensures ChunkIndexOf(a + (":" + (DecimalText(n) + rest))) == Some(n)
  {
    AfterColonOf(a, DecimalText(n) + rest);
    DecimalOfText(n);
    DecimalTextIsDigits(n);
    UpToColonOf(DecimalText(n), rest);
  }

  /** What stands there and is no number gives no index. */
  lemma NoNumberNoIndex(a: string, part: string, rest: string)
    requires NoColon(a) && NoColon(part) && (rest == "" || rest[0] == ':')
    requires part == "" || exists i :: 0 <= i < |part| && !('0' <= part[i] <= '9')
    ensures ChunkIndexOf(a + (":" + (part + rest))).None?
  {
    AfterColonOf(a, part + rest);
    UpToColonOf(part, rest);
    if i :| 0 <= i < |part| && !('0' <= part[i] <= '9') {
      assert !IsDigit(part[i]);
    }
  }

  /** The id made up for a message carries the message's index, so a chunk without an id is
      found by it. */
  lemma MadeUpIdCarriesIndex(c: ConversationId, index: nat, message: Message)
    requires NoColon(c.text)
    ensures FallbackItem(c, index, message).id.Text?
    ensures ChunkIndexOf(FallbackItem(c, index, message).id.value) == Some(index)
  {
    var id := FallbackItem(c, index, message).id.value;
    assert id == c.text + (":" + (DecimalText(index) + (":" + message.hash)));
    IndexInId(c.text, index, ":" + message.hash);
  }

  // ---- which chunks are marked -----------------------------------------------------------------------

  /** The ids mean a chunk by its id or, when it has none or an empty one, by its index. */
  predicate Means(chunkIds: seq<string>, item: Item) {
    item.Chunk?
    && match item.id
       case Absent => IndexMeant(chunkIds, item.index)
       case Null => "None" in chunkIds
       case Text(id) => if id != "" then id in chunkIds else IndexMeant(chunkIds, item.index)
  }

  predicate IndexMeant(chunkIds: seq<string>, index: Option<int>) {
    index.Some?
    && exists id :: id in chunkIds && id != "" && ChunkIndexOf(id).Some? && ChunkIndexOf(id).value == index.value
  }

  lemma MatchesIff(chunkIds: seq<string>, item: Item)
    requires item.Chunk?
    ensures FromChunkIds(chunkIds).Matches(item) <==> Means(chunkIds, item)
  {
    if IndexMeant(chunkIds, item.index) {
      var id :| id in chunkIds && id != "" && ChunkIndexOf(id).Some? && ChunkIndexOf(id).value == item.index.value;
      assert ChunkIndexOf(id).value as int in FromChunkIds(chunkIds).indexes;
    }
  }

  lemma IndexIsFromSome(chunkIds: seq<string>, index: int)
    requires index in IdsByIndex(chunkIds)
    ensures
      exists l :: 0 <= l < |chunkIds| && ChunkIndexOf(chunkIds[l]).Some? && ChunkIndexOf(chunkIds[l]).value == index
  {
    IdsByIndexSound(chunkIds, index);
    var l :| 0 <= l < |chunkIds| && chunkIds[l] == IdsByIndex(chunkIds)[index];
  }

  lemma CarriedIff(chunkIds: seq<string>, index: int)
    ensures index in IdsByIndex(chunkIds)
       <==> exists k :: 0 <= k < |chunkIds| && ChunkIndexOf(chunkIds[k]).Some?
                        && ChunkIndexOf(chunkIds[k]).value == index
  {
    if index in IdsByIndex(chunkIds) {
      IndexIsFromSome(chunkIds, index);
    }
    if k :| 0 <= k < |chunkIds| && ChunkIndexOf(chunkIds[k]).Some? && ChunkIndexOf(chunkIds[k]).value == index {
      IdsByIndexComplete(chunkIds, chunkIds[k]);
    }
  }

  /** The chunk has no id, and one of the ids carries its index. */
  predicate IdCanBeFilled(chunkIds: seq<string>, item: Item)
    requires item.Chunk?
  {
    && (item.id.Absent? || item.id.Null? || item.id.value == "")
    && item.index.Some?
    && exists k :: 0 <= k < |chunkIds| && ChunkIndexOf(chunkIds[k]).Some?
                   && ChunkIndexOf(chunkIds[k]).value == item.index.value
  }

  /** Marking sets the state of exactly the chunks that the ids mean. It changes no body and no
      index, and an id exactly where it can be filled in: with a given id that carries the index. */
  lemma MarkingChanges(item: Item, chunkIds: seq<string>, state: IndexState)
    ensures
      var after := MarkItem(item, chunkIds, state);
      && (!Means(chunkIds, item) ==> after == item)
      && (Means(chunkIds, item) ==>
            && after.Chunk? && after.state == Some(state) && after.index == item.index && after.body == item.body
            && (!IdCanBeFilled(chunkIds, item) ==> after.id == item.id)
            && (IdCanBeFilled(chunkIds, item) ==>
                  && after.id.Text? && after.id.value in chunkIds
                  && ChunkIndexOf(after.id.value).Some? && ChunkIndexOf(after.id.value).value == item.index.value))
  {
    if item.Chunk? {
      MatchesIff(chunkIds, item);
      if item.index.Some? {
        CarriedIff(chunkIds, item.index.value);
      }
      if item.index.Some? && item.index.value in IdsByIndex(chunkIds) {
        IdsByIndexSound(chunkIds, item.index.value);
      }
    }
  }

  /** And it is the first of the given ids with that index. */
  lemma {:induction false} FirstIdForIndex(chunkIds: seq<string>, index: int, k: nat)
    requires k < |chunkIds| && ChunkIndexOf(chunkIds[k]).Some? && ChunkIndexOf(chunkIds[k]).value == index
    requires forall l :: 0 <= l < k && ChunkIndexOf(chunkIds[l]).Some? ==> ChunkIndexOf(chunkIds[l]).value != index
    ensures index in IdsByIndex(chunkIds) && IdsByIndex(chunkIds)[index] == chunkIds[k]
    decreases |chunkIds|
  {
    var front := chunkIds[..|chunkIds| - 1];
    if k < |front| {
      FirstIdForIndex(front, index, k);
    } else if index in IdsByIndex(front) {
      IndexIsFromSome(front, index);
    }
  }
}
