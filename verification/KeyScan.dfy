/** The scan of plugin output for protected keys: a worklist over an object graph that
    may share and repeat objects, and the validation built on it. */
module KeyScan {
  import opened Options

  /** An object's identity. */
  datatype Ref = Ref(address: nat)

  /** A mapping key: a string, or anything else. */
  datatype Key = StringKey(text: string) | OtherKey(code: nat)

  datatype Entry = Entry(key: Key, value: Ref)

  /** `Mapping` is a dict or another mapping type, `Sequence` a list or a tuple; a `Scalar` is
      anything that is not a container. */
  datatype Value =
    | Mapping(isDict: bool, entries: seq<Entry>)
    | Sequence(isList: bool, items: seq<Ref>)
    | Scalar(isString: bool)

  /** The objects of a payload, cyclic or not. */
  type Heap = map<Ref, Value>

  const FORBIDDEN_PLUGIN_OUTPUT_KEYS := {
    "owner_id", "project_id", "auth", "authorization", "api_key", "token",
    "raw_html", "screenshot", "screenshot_data"}

  predicate Container(heap: Heap, r: Ref) {
    r in heap && !heap[r].Scalar?
  }

  function Children(v: Value): seq<Ref> {
    match v
    case Mapping(_, entries) => seq(|entries|, i requires 0 <= i < |entries| => entries[i].value)
    case Sequence(_, items) => items
    case Scalar(_) => []
  }

  function OwnForbidden(v: Value): set<string> {
    if v.Mapping?
    then set i | 0 <= i < |v.entries| && v.entries[i].key.StringKey?
                 && v.entries[i].key.text in FORBIDDEN_PLUGIN_OUTPUT_KEYS :: v.entries[i].key.text
    else {}
  }

  // ---- reachability -----------------------------------------------------------------------

  /** `child` is a value of the container `r`. */
  predicate Edge(heap: Heap, r: Ref, child: Ref) {
    Container(heap, r) && child in Children(heap[r])
  }

  /** `path` leads from its first object to its last through containers. */
  ghost predicate IsPath(heap: Heap, path: seq<Ref>) {
    && path != []
    && forall i :: 0 <= i < |path| - 1 ==> Edge(heap, path[i], path[i + 1])
  }

  ghost predicate Reachable(heap: Heap, root: Ref, r: Ref) {
    exists path :: IsPath(heap, path) && path[0] == root && path[|path| - 1] == r
  }

  predicate Holds(heap: Heap, r: Ref, key: string) {
    r in heap && key in OwnForbidden(heap[r])
  }

  /** The key stands in a mapping reachable from the root and is protected. */
  ghost predicate ForbiddenReachable(heap: Heap, root: Ref, key: string) {
    exists r :: Holds(heap, r, key) && Reachable(heap, root, r)
  }

  lemma ReachableSelf(heap: Heap, root: Ref)
    ensures Reachable(heap, root, root)
  {
    assert IsPath(heap, [root]);
  }

  lemma ReachableChild(heap: Heap, root: Ref, r: Ref, child: Ref)
    requires Reachable(heap, root, r) && Edge(heap, r, child)
    ensures Reachable(heap, root, child)
  {
    var path :| IsPath(heap, path) && path[0] == root && path[|path| - 1] == r;
    var longer := path + [child];
    forall i | 0 <= i < |longer| - 1 ensures Edge(heap, longer[i], longer[i + 1]) {
      if i < |path| - 1 {
        assert longer[i] == path[i] && longer[i + 1] == path[i + 1];
      }
    }
    assert IsPath(heap, longer);
  }

  lemma ReachableTrans(heap: Heap, a: Ref, b: Ref, c: Ref)
    requires Reachable(heap, a, b) && Reachable(heap, b, c)
    ensures Reachable(heap, a, c)
  {
    var path :| IsPath(heap, path) && path[0] == b && path[|path| - 1] == c;
    ReachableAlong(heap, a, path, |path| - 1);
  }

  lemma {:induction false} ReachableAlong(heap: Heap, a: Ref, path: seq<Ref>, i: nat)
    requires IsPath(heap, path) && i < |path| && Reachable(heap, a, path[0])
    ensures Reachable(heap, a, path[i])
  {
    if i > 0 {
      ReachableAlong(heap, a, path, i - 1);
      ReachableChild(heap, a, path[i - 1], path[i]);
    }
  }

  // ---- the scan -------------------------------------------------------------------------------

  /** A container below what was visited is visited or still waits. */
  predicate Covered(heap: Heap, stack: seq<Ref>, visited: set<Ref>, r: Ref) {
    Container(heap, r) ==> r in visited || r in stack
  }

  ghost predicate AllReachable(heap: Heap, root: Ref, stack: seq<Ref>, visited: set<Ref>) {
    && (forall r :: r in visited ==> Container(heap, r) && Reachable(heap, root, r))
    && (forall r :: r in stack ==> Reachable(heap, root, r))
  }

  ghost predicate NoneForgotten(heap: Heap, root: Ref, stack: seq<Ref>, visited: set<Ref>) {
    && Covered(heap, stack, visited, root)
    && forall r, child :: r in visited && Edge(heap, r, child) ==> Covered(heap, stack, visited, child)
  }

  ghost predicate FoundSoFar(heap: Heap, visited: set<Ref>, found: set<string>) {
    forall key :: key in found <==> exists r :: r in visited && Holds(heap, r, key)
  }

  /** The keys found are exactly the protected keys reachable from the root. The heap is a
      finite map, and an object is entered once, so the scan ends on cyclic graphs too. */
  method FindForbiddenKeys(heap: Heap, root: Ref) returns (found: set<string>)
    ensures forall key :: key in found <==> ForbiddenReachable(heap, root, key)
  {
    found := {};
    var stack := [root];
    var visited: set<Ref> := {};
    ReachableSelf(heap, root);
    while stack != []
      invariant AllReachable(heap, root, stack, visited)
      invariant NoneForgotten(heap, root, stack, visited)
      invariant FoundSoFar(heap, visited, found)
      decreases heap.Keys - visited, |stack|
    {
      var value := stack[|stack| - 1];
      ghost var before := stack;
      stack := stack[..|stack| - 1];
      assert before == stack + [value];
      if !Container(heap, value) || value in visited {
        SkipForgetsNothing(heap, root, stack, visited, value);
        continue;
      }
      EnterKeepsReachable(heap, root, stack, visited, value);
      EnterForgetsNothing(heap, root, stack, visited, value);
      EnterFinds(heap, visited, found, value);
      assert heap.Keys - (visited + {value}) < heap.Keys - visited by {
        assert value in heap.Keys - visited;
      }
      visited := visited + {value};
      found := found + OwnForbidden(heap[value]);
      stack := stack + Children(heap[value]);
    }
    ScanComplete(heap, root, visited, found);
  }

  lemma SkipForgetsNothing(heap: Heap, root: Ref, stack: seq<Ref>, visited: set<Ref>, value: Ref)
    requires NoneForgotten(heap, root, stack + [value], visited)
    requires !Container(heap, value) || value in visited
    ensures NoneForgotten(heap, root, stack, visited)
  {
    forall r | Covered(heap, stack + [value], visited, r) ensures Covered(heap, stack, visited, r) {
    }
  }

  lemma EnterKeepsReachable(heap: Heap, root: Ref, stack: seq<Ref>, visited: set<Ref>, value: Ref)
    requires AllReachable(heap, root, stack + [value], visited) && Container(heap, value)
    ensures AllReachable(heap, root, stack + Children(heap[value]), visited + {value})
  {
    assert value in stack + [value];
    forall r | r in stack + Children(heap[value]) ensures Reachable(heap, root, r) {
      if r in stack {
        assert r in stack + [value];
      } else {
        assert Edge(heap, value, r);
        ReachableChild(heap, root, value, r);
      }
    }
  }

  lemma EnterForgetsNothing(heap: Heap, root: Ref, stack: seq<Ref>, visited: set<Ref>, value: Ref)
    requires NoneForgotten(heap, root, stack + [value], visited) && Container(heap, value)
    ensures NoneForgotten(heap, root, stack + Children(heap[value]), visited + {value})
  {
    var children := Children(heap[value]);
    forall r | Covered(heap, stack + [value], visited, r)
      ensures Covered(heap, stack + children, visited + {value}, r)
    {
    }
    forall r, child | r in visited + {value} && Edge(heap, r, child)
      ensures Covered(heap, stack + children, visited + {value}, child)
    {
      if r == value {
        assert child in children;
      } else {
        assert Covered(heap, stack + [value], visited, child);
      }
    }
  }

  lemma EnterFinds(heap: Heap, visited: set<Ref>, found: set<string>, value: Ref)
    requires FoundSoFar(heap, visited, found) && Container(heap, value)
    ensures FoundSoFar(heap, visited + {value}, found + OwnForbidden(heap[value]))
  {
    forall key
      ensures key in found + OwnForbidden(heap[value]) <==> exists r :: r in visited + {value} && Holds(heap, r, key)
    {
      if key in OwnForbidden(heap[value]) {
        assert value in visited + {value} && Holds(heap, value, key);
      } else if key in found {
        var r :| r in visited && Holds(heap, r, key);
        assert r in visited + {value};
      }
    }
  }

  /** When nothing waits, the visited objects are all the reachable containers. */
  lemma ScanComplete(heap: Heap, root: Ref, visited: set<Ref>, found: set<string>)
    requires AllReachable(heap, root, [], visited) && NoneForgotten(heap, root, [], visited)
    requires FoundSoFar(heap, visited, found)
    ensures forall key :: key in found <==> ForbiddenReachable(heap, root, key)
  {
    forall key ensures key in found <==> ForbiddenReachable(heap, root, key) {
      if ForbiddenReachable(heap, root, key) {
        var r :| Holds(heap, r, key) && Reachable(heap, root, r);
        var path :| IsPath(heap, path) && path[0] == root && path[|path| - 1] == r;
        ClosedUnderPaths(heap, root, visited, path, |path| - 1);
      }
    }
  }

  lemma {:induction false} ClosedUnderPaths(heap: Heap, root: Ref, visited: set<Ref>, path: seq<Ref>, i: nat)
    requires NoneForgotten(heap, root, [], visited)
    requires IsPath(heap, path) && path[0] == root && i < |path| && Container(heap, path[i])
    ensures path[i] in visited
  {
    if i > 0 {
      assert Edge(heap, path[i - 1], path[i]);
      ClosedUnderPaths(heap, root, visited, path, i - 1);
      assert Covered(heap, [], visited, path[i]);
    } else {
      assert Covered(heap, [], visited, path[0]);
    }
  }

  // ---- validating plugin output ------------------------------------------------------------------

  datatype Problem =
    | NotAnObject
    | ForbiddenKeys(keys: set<string>)
    | NoMessages
    | MessageNotAnObject(position: nat)
    | MessageWithoutText(position: nat)

  /** The value under a string key of a mapping. */
  function Get(entries: seq<Entry>, key: string): Option<Ref> {
    if entries == [] then None
    else if entries[0].key == StringKey(key) then Some(entries[0].value)
    else Get(entries[1..], key)
  }

  lemma {:induction false} GetIsChild(entries: seq<Entry>, key: string)
    requires Get(entries, key).Some?
    ensures exists i :: 0 <= i < |entries| && entries[i].value == Get(entries, key).value
    decreases |entries|
  {
    if entries[0].key != StringKey(key) {
      GetIsChild(entries[1..], key);
      var i :| 0 <= i < |entries[1..]| && entries[1..][i].value == Get(entries[1..], key).value;
      assert entries[i + 1].value == Get(entries, key).value;
    } else {
      assert entries[0].value == Get(entries, key).value;
    }
  }

  predicate IsDict(heap: Heap, r: Ref) {
    r in heap && heap[r].Mapping? && heap[r].isDict
  }

  predicate IsStringAt(heap: Heap, r: Option<Ref>) {
    r.Some? && r.value in heap && heap[r.value].Scalar? && heap[r.value].isString
  }

  /** The message list of a payload: a non-empty list. */
  function MessagesOf(heap: Heap, payload: Ref): Option<seq<Ref>>
    requires IsDict(heap, payload)
  {
    var messages := Get(heap[payload].entries, "messages");
    if messages.Some? && messages.value in heap && heap[messages.value].Sequence? && heap[messages.value].isList
       && heap[messages.value].items != []
    then Some(heap[messages.value].items) else None
  }

  predicate HasRoleAndText(heap: Heap, r: Ref)
    requires IsDict(heap, r)
  {
    IsStringAt(heap, Get(heap[r].entries, "role")) && IsStringAt(heap, Get(heap[r].entries, "text"))
  }

  predicate GoodMessage(heap: Heap, r: Ref) {
    IsDict(heap, r) && HasRoleAndText(heap, r)
  }

  /** The first message that is not a dict with a role and a text is at `position`. */
  predicate FirstBadMessage(heap: Heap, payload: Ref, position: nat)
    requires IsDict(heap, payload)
  {
    && MessagesOf(heap, payload).Some?
    && var messages := MessagesOf(heap, payload).value;
       && position < |messages|
       && !GoodMessage(heap, messages[position])
       && forall k :: 0 <= k < position ==> GoodMessage(heap, messages[k])
  }

  ghost predicate Clean(heap: Heap, root: Ref) {
    forall key :: !ForbiddenReachable(heap, root, key)
  }

  lemma CleanBelow(heap: Heap, a: Ref, b: Ref)
    requires Clean(heap, a) && Reachable(heap, a, b)
    ensures Clean(heap, b)
  {
    forall key ensures !ForbiddenReachable(heap, b, key) {
      if ForbiddenReachable(heap, b, key) {
        var r :| Holds(heap, r, key) && Reachable(heap, b, r);
        ReachableTrans(heap, a, b, r);
        assert ForbiddenReachable(heap, a, key);
      }
    }
  }

  lemma ValueIsReachable(heap: Heap, r: Ref, key: string)
    requires IsDict(heap, r) && Get(heap[r].entries, key).Some?
    ensures Reachable(heap, r, Get(heap[r].entries, key).value)
  {
    var entries := heap[r].entries;
    GetIsChild(entries, key);
    var i :| 0 <= i < |entries| && entries[i].value == Get(entries, key).value;
    assert Children(heap[r])[i] == entries[i].value;
    ReachableSelf(heap, r);
    ReachableChild(heap, r, r, entries[i].value);
  }

  /** A message lies below its payload, so a clean payload has clean messages. */
  lemma CleanPayloadHasCleanMessages(heap: Heap, payload: Ref, message: Ref)
    requires IsDict(heap, payload) && MessagesOf(heap, payload).Some?
    requires message in MessagesOf(heap, payload).value && Clean(heap, payload)
    ensures Clean(heap, message)
  {
    ValueIsReachable(heap, payload, "messages");
    var list := Get(heap[payload].entries, "messages").value;
    ReachableChild(heap, payload, list, message);
    CleanBelow(heap, payload, message);
  }

  /** `validate_plugin_conversation_output`. None means that the payload is returned. A
      forbidden key is only ever reported by the first scan, over the whole payload: the
      scans of the single messages never find one. */
  method ValidatePluginConversationOutput(heap: Heap, payload: Ref) returns (problem: Option<Problem>)
    ensures problem.None? <==>
              && IsDict(heap, payload) && Clean(heap, payload)
              && MessagesOf(heap, payload).Some?
              && forall m :: m in MessagesOf(heap, payload).value ==> GoodMessage(heap, m)
    ensures problem == Some(NotAnObject) <==> !IsDict(heap, payload)
    ensures problem.Some? && problem.value.ForbiddenKeys? <==> IsDict(heap, payload) && !Clean(heap, payload)
    ensures problem.Some? && problem.value.ForbiddenKeys? ==>
              forall key :: key in problem.value.keys <==> ForbiddenReachable(heap, payload, key)
    ensures problem == Some(NoMessages) <==>
              IsDict(heap, payload) && Clean(heap, payload) && MessagesOf(heap, payload).None?
    ensures problem.Some? && problem.value.MessageNotAnObject? ==>
              var position := problem.value.position;
              IsDict(heap, payload) && FirstBadMessage(heap, payload, position)
              && !IsDict(heap, MessagesOf(heap, payload).value[position])
    ensures problem.Some? && problem.value.MessageWithoutText? ==>
              var position := problem.value.position;
              IsDict(heap, payload) && FirstBadMessage(heap, payload, position)
              && IsDict(heap, MessagesOf(heap, payload).value[position])
  {
    if !IsDict(heap, payload) {
      return Some(NotAnObject);
    }
    var found := FindForbiddenKeys(heap, payload);
    if found != {} {
      var key :| key in found;
      assert ForbiddenReachable(heap, payload, key);
      return Some(ForbiddenKeys(found));
    }
    var messages := MessagesOf(heap, payload);
    if messages.None? {
      return Some(NoMessages);
    }
    var i := 0;
    while i < |messages.value|
      invariant 0 <= i <= |messages.value|
      invariant forall k :: 0 <= k < i ==> GoodMessage(heap, messages.value[k])
    {
      var message := messages.value[i];
      assert message in messages.value;
      if !IsDict(heap, message) {
        return Some(MessageNotAnObject(i));
      }
      if !HasRoleAndText(heap, message) {
        return Some(MessageWithoutText(i));
      }
      CleanPayloadHasCleanMessages(heap, payload, message);
      var again := FindForbiddenKeys(heap, message);
      if again != {} {
        return Some(ForbiddenKeys(again));
      }
      i := i + 1;
    }
    return None;
  }

  // ---- what is scanned and what is asked of a message -------------------------------------------

  /** The scan goes from a mapping to its values and from a list or tuple to its items. */
  lemma EdgeIff(heap: Heap, r: Ref, child: Ref)
    ensures
      Edge(heap, r, child)
      <==> r in heap
           && match heap[r]
              case Mapping(_, entries) => exists i :: 0 <= i < |entries| && entries[i].value == child
              case Sequence(_, items) => child in items
              case Scalar(_) => false
  {
    if r in heap && heap[r].Mapping? {
      var entries := heap[r].entries;
      if i :| 0 <= i < |entries| && entries[i].value == child {
        assert Children(heap[r])[i] == child;
      }
    }
  }

  /** A mapping holds a protected key when one of its keys is that very text. */
  lemma HoldsIff(heap: Heap, r: Ref, key: string)
    ensures
      Holds(heap, r, key)
      <==> && r in heap && heap[r].Mapping?
           && (exists i :: 0 <= i < |heap[r].entries| && heap[r].entries[i].key == StringKey(key))
           && (key == "owner_id" || key == "project_id" || key == "auth" || key == "authorization"
               || key == "api_key" || key == "token" || key == "raw_html" || key == "screenshot"
               || key == "screenshot_data")
  {
  }

  /** The value read under a key is that of its first entry. */
  lemma {:induction false} GetIff(entries: seq<Entry>, key: string)
    ensures Get(entries, key).None? <==> forall i :: 0 <= i < |entries| ==> entries[i].key != StringKey(key)
    ensures Get(entries, key).Some? ==>
              exists i :: 0 <= i < |entries| && entries[i].key == StringKey(key)
                          && entries[i].value == Get(entries, key).value
                          && forall j :: 0 <= j < i ==> entries[j].key != StringKey(key)
    decreases |entries|
  {
    if entries != [] {
      if entries[0].key == StringKey(key) {
        assert entries[0].value == Get(entries, key).value;
      } else {
        GetIff(entries[1..], key);
        LaterEntry(entries, key);
      }
    }
  }

  lemma LaterEntry(entries: seq<Entry>, key: string)
    requires entries != [] && entries[0].key != StringKey(key)
    requires Get(entries[1..], key).None?
        <==> forall i :: 0 <= i < |entries[1..]| ==> entries[1..][i].key != StringKey(key)
    requires Get(entries[1..], key).Some? ==>
               exists i :: 0 <= i < |entries[1..]| && entries[1..][i].key == StringKey(key)
                           && entries[1..][i].value == Get(entries[1..], key).value
                           && forall j :: 0 <= j < i ==> entries[1..][j].key != StringKey(key)
    ensures Get(entries, key).None? <==> forall i :: 0 <= i < |entries| ==> entries[i].key != StringKey(key)
    ensures Get(entries, key).Some? ==>
              exists i :: 0 <= i < |entries| && entries[i].key == StringKey(key)
                          && entries[i].value == Get(entries, key).value
                          && forall j :: 0 <= j < i ==> entries[j].key != StringKey(key)
  {
    assert forall i :: 0 <= i < |entries[1..]| ==> entries[1..][i] == entries[i + 1];
    if Get(entries, key).Some? {
      var i :| 0 <= i < |entries[1..]| && entries[1..][i].key == StringKey(key)
               && entries[1..][i].value == Get(entries[1..], key).value
               && forall j :: 0 <= j < i ==> entries[1..][j].key != StringKey(key);
      assert entries[i + 1].key == StringKey(key);
      forall j | 0 <= j < i + 1 ensures entries[j].key != StringKey(key) {
        if j > 0 {
          assert entries[1..][j - 1] == entries[j];
        }
      }
    } else {
      forall i | 0 <= i < |entries| ensures entries[i].key != StringKey(key) {
        if i > 0 {
          assert entries[1..][i - 1] == entries[i];
        }
      }
    }
  }

  /** A message is good when it is a dict whose role and text are strings. */
  lemma GoodMessageIff(heap: Heap, r: Ref)
    ensures
      GoodMessage(heap, r)
      <==> && r in heap && heap[r].Mapping? && heap[r].isDict
           && (var role := Get(heap[r].entries, "role");
               role.Some? && role.value in heap && heap[role.value] == Scalar(true))
           && (var text := Get(heap[r].entries, "text");
               text.Some? && text.value in heap && heap[text.value] == Scalar(true))
  {
  }

  /** A payload has messages when they are a list, and not an empty one. */
  lemma HasMessagesIff(heap: Heap, payload: Ref)
    requires IsDict(heap, payload)
    ensures heap[payload].Mapping? && heap[payload].isDict
    ensures
      var found := Get(heap[payload].entries, "messages");
      && (MessagesOf(heap, payload).Some?
          <==> found.Some? && found.value in heap && heap[found.value].Sequence? && heap[found.value].isList
               && heap[found.value].items != [])
      && (MessagesOf(heap, payload).Some? ==> MessagesOf(heap, payload).value == heap[found.value].items)
  {
  }
}
