/**
 * The settings GUI's AI assistant, without the language-model calls: the
 * per-user hourly message limit, which tools a user may call and is
 * offered, and the chat history (the twenty newest conversations kept per
 * user, the ten newest listed).
 */
module AiAssistant {
  import opened Common

  // ---------------------------------------------------------------------
  // Rate limit
  // ---------------------------------------------------------------------

  const DefaultRateLimitPerHour := 30
  const RateWindowSeconds := 3600.0

  /** Messages counted in the current window and when the window ends. */
  datatype RateEntry = RateEntry(count: int, resetAt: real)

  /**
   * `_check_rate_limit` at time `now`: a user without an entry, or whose
   * window has ended, starts a new window with one message; a user at the
   * limit is refused; otherwise the message is counted.
   */
  function RateStep(entries: map<string, RateEntry>, username: string, now: real, limit: int)
    : (r: (map<string, RateEntry>, bool))
    ensures r.0.Keys == entries.Keys + {username}
    ensures forall u :: u in entries && u != username ==> r.0[u] == entries[u]
    ensures username !in entries || now > entries[username].resetAt ==>
      r.1 && r.0[username] == RateEntry(1, now + RateWindowSeconds)
    ensures username in entries && now <= entries[username].resetAt ==>
      && r.0[username].resetAt == entries[username].resetAt
      && (r.1 <==> entries[username].count < limit)
      && r.0[username].count == (if r.1 then entries[username].count + 1 else entries[username].count)
  {
    if username !in entries || now > entries[username].resetAt then
      (entries[username := RateEntry(1, now + RateWindowSeconds)], true)
    else
      var entry := entries[username];
      if entry.count >= limit then (entries, false)
      else (entries[username := entry.(count := entry.count + 1)], true)
  }

  /** A user's calls at the given times: the entries afterwards and how many calls were allowed. */
  function RateRun(entries: map<string, RateEntry>, username: string, times: seq<real>, limit: int)
    : (r: (map<string, RateEntry>, nat))
    ensures r.1 <= |times|
    ensures r.0.Keys == entries.Keys + (if times == [] then {} else {username})
    ensures forall u :: u in entries && u != username ==> r.0[u] == entries[u]
  {
    if times == [] then (entries, 0)
    else
      var (before, allowed) := RateRun(entries, username, times[..|times| - 1], limit);
      var (after, ok) := RateStep(before, username, times[|times| - 1], limit);
      (after, if ok then allowed + 1 else allowed)
  }

  /**
   * Within one window a user is allowed no more messages than the limit
   * leaves: calls before the window ends add up to at most `limit - count`.
   */
  lemma {:induction false} WindowAllowsAtMostLimit(entries: map<string, RateEntry>, username: string,
                                                   times: seq<real>, limit: int)
    requires username in entries
    requires forall i :: 0 <= i < |times| ==> times[i] <= entries[username].resetAt
    ensures var r := RateRun(entries, username, times, limit);
      && username in r.0 && r.0[username].resetAt == entries[username].resetAt
      && r.0[username].count == entries[username].count + r.1
      && (entries[username].count <= limit ==> r.1 <= limit - entries[username].count)
  {
    if times != [] {
      WindowAllowsAtMostLimit(entries, username, times[..|times| - 1], limit);
    }
  }

  /** The process-wide table of per-user counts. */
  class RateLimiter {
    var entries: map<string, RateEntry>
    const limit: int

    constructor (limit: int)
      ensures entries == map[] && this.limit == limit
    {
      entries := map[];
      this.limit := limit;
    }

    method CheckRateLimit(username: string, now: real) returns (ok: bool)
      modifies this
      ensures (entries, ok) == RateStep(old(entries), username, now, limit)
    {
      var entry := if username in entries then Some(entries[username]) else None;
      if entry.None? || now > entry.value.resetAt {
        entries := entries[username := RateEntry(1, now + RateWindowSeconds)];
        return true;
      }
      if entry.value.count >= limit {
        return false;
      }
      entries := entries[username := entry.value.(count := entry.value.count + 1)];
      return true;
    }
  }

  // ---------------------------------------------------------------------
  // Tool access
  // ---------------------------------------------------------------------

  /** A tool definition; an absent `requires_access` means "none". */
  datatype ToolDef = ToolDef(name: string, description: string, inputSchema: string,
                             requiresAccess: Option<string>, write: bool)

  /**
   * Who is asking: the role (absent means "viewer"), the ids of the houses
   * and buildings they may see, and the edit check the GUI supplies (absent
   * means no house is editable).
   */
  datatype UserContext = UserContext(role: Option<string>, houses: set<string>, buildings: set<string>,
                                     canEdit: Option<string -> bool>)

  /** Tool arguments; an absent argument is the empty string, which Python treats as false. */
  type Params = map<string, string>

  function AccessOf(td: ToolDef): string
  {
    match td.requiresAccess
    case Some(a) => a
    case None => "none"
  }

  function RoleOf(ctx: UserContext): string
  {
    match ctx.role
    case Some(r) => r
    case None => "viewer"
  }

  function Param(params: Params, key: string): string
  {
    if key in params then params[key] else ""
  }

  /** Python's `a or b` on strings. */
  function Or(a: string, b: string): string
  {
    if a != "" then a else b
  }

  function CanEdit(ctx: UserContext, houseId: string): bool
  {
    match ctx.canEdit
    case Some(f) => f(houseId)
    case None => false
  }

  function HouseParam(params: Params): string
  {
    Or(Param(params, "house_id"), Param(params, "entity_id"))
  }

  /** The entity an "entity" tool names: entity, else house, else building id. */
  function EntityParam(params: Params): string
  {
    Or(Or(Param(params, "entity_id"), Param(params, "house_id")), Param(params, "building_id"))
  }

  /** The kind of entity named, "house" when not given. */
  function EntityType(params: Params): string
  {
    if "entity_type" in params then params["entity_type"] else "house"
  }

  /**
   * `_check_tool_access`: `None` when the call is allowed, otherwise the
   * reason it is refused.  A level other than the known ones allows the
   * call.
   */
  function CheckToolAccess(td: ToolDef, params: Params, ctx: UserContext): (r: Option<string>)
    ensures AccessOf(td) == "none" ==> r.None?
    ensures AccessOf(td) == "admin" ==> (r.None? <==> RoleOf(ctx) == "admin")
    ensures AccessOf(td) == "house" ==> (r.None? <==> HouseParam(params) == "" || HouseParam(params) in ctx.houses)
    ensures AccessOf(td) == "house_edit" ==>
      (r.None? <==>
         && (HouseParam(params) == "" || HouseParam(params) in ctx.houses)
         && RoleOf(ctx) != "viewer"
         && (RoleOf(ctx) == "user" ==> CanEdit(ctx, HouseParam(params))))
    ensures AccessOf(td) == "building" ==>
      (r.None? <==> Or(Param(params, "building_id"), Param(params, "entity_id")) in ctx.buildings + {""})
    ensures AccessOf(td) == "entity" ==>
      (r.None? <==> EntityParam(params) in (if EntityType(params) == "building" then ctx.buildings else ctx.houses) + {""})
    ensures AccessOf(td) !in ["none", "admin", "house", "house_edit", "building", "entity"] ==> r.None?
  {
    var access := AccessOf(td);
    var role := RoleOf(ctx);
    if access == "none" then None
    else if access == "admin" then
      (if role != "admin" then Some("This action requires admin access.") else None)
    else
      var entityId := EntityParam(params);
      var entityType := EntityType(params);
      if access == "house" || access == "house_edit" then
        var hid := HouseParam(params);
        if hid != "" && hid !in ctx.houses then Some("You do not have access to house " + hid + ".")
        else if access == "house_edit" && role == "viewer" then Some("Viewers cannot change settings.")
        else if access == "house_edit" && role == "user" && !CanEdit(ctx, hid) then
          Some("You do not have edit permission for " + hid + ".")
        else None
      else if access == "building" then
        var bid := Or(Param(params, "building_id"), Param(params, "entity_id"));
        if bid != "" && bid !in ctx.buildings then Some("You do not have access to building " + bid + ".")
        else None
      else if access == "entity" then
        if entityType == "building" then
          if entityId != "" && entityId !in ctx.buildings then
            Some("You do not have access to building " + entityId + ".")
          else None
        else if entityId != "" && entityId !in ctx.houses then
          Some("You do not have access to house " + entityId + ".")
        else None
      else None
  }

  /** A viewer is refused every house-editing tool, whatever the arguments. */
  lemma ViewersNeverEdit(td: ToolDef, params: Params, ctx: UserContext)
    requires AccessOf(td) == "house_edit" && RoleOf(ctx) == "viewer"
    ensures CheckToolAccess(td, params, ctx).Some?
  {
  }

  // ---------------------------------------------------------------------
  // Tools offered to the model
  // ---------------------------------------------------------------------

  /** What the model is told about a tool. */
  datatype ToolSpec = ToolSpec(name: string, description: string, inputSchema: string)

  function SpecOf(td: ToolDef): ToolSpec
  {
    ToolSpec(td.name, td.description, td.inputSchema)
  }

  /** Admin tools are offered to admins only, write tools to everyone but viewers. */
  predicate Offered(td: ToolDef, role: string)
  {
    !(td.requiresAccess == Some("admin") && role != "admin") && !(td.write && role == "viewer")
  }

  /** `_get_anthropic_tools`: the offered definitions, in order. */
  function ToolsFor(defs: seq<ToolDef>, role: string): seq<ToolSpec>
  {
    if defs == [] then []
    else
      var n := |defs| - 1;
      ToolsFor(defs[..n], role) + (if Offered(defs[n], role) then [SpecOf(defs[n])] else [])
  }

  /**
   * Every tool offered comes from a definition the role may use — so no
   * admin tool reaches a non-admin and no write tool a viewer — and every
   * usable definition is offered.
   */
  lemma {:induction false} ToolsForMeaning(defs: seq<ToolDef>, role: string)
    ensures |ToolsFor(defs, role)| <= |defs|
    ensures forall t :: t in ToolsFor(defs, role) ==>
      exists i :: 0 <= i < |defs| && SpecOf(defs[i]) == t && Offered(defs[i], role)
    ensures forall i :: 0 <= i < |defs| && Offered(defs[i], role) ==> SpecOf(defs[i]) in ToolsFor(defs, role)
  {
    if defs != [] {
      var n := |defs| - 1;
      ToolsForMeaning(defs[..n], role);
      assert forall i :: 0 <= i < n ==> defs[..n][i] == defs[i];
      forall t | t in ToolsFor(defs, role)
        ensures exists i :: 0 <= i < |defs| && SpecOf(defs[i]) == t && Offered(defs[i], role)
      {
        if t !in ToolsFor(defs[..n], role) {
          assert SpecOf(defs[n]) == t && Offered(defs[n], role);
        }
      }
    }
  }

  method GetAnthropicTools(defs: seq<ToolDef>, ctx: UserContext) returns (tools: seq<ToolSpec>)
    ensures tools == ToolsFor(defs, RoleOf(ctx))
  {
    var role := RoleOf(ctx);
    tools := [];
    for i := 0 to |defs|
      invariant tools == ToolsFor(defs[..i], role)
    {
      assert defs[..i + 1][..i] == defs[..i];
      var td := defs[i];
      if td.requiresAccess == Some("admin") && role != "admin" {
        continue;
      }
      if td.write && role == "viewer" {
        continue;
      }
      tools := tools + [SpecOf(td)];
    }
    assert defs[..|defs|] == defs;
  }

  // ---------------------------------------------------------------------
  // Chat history
  // ---------------------------------------------------------------------

  const MaxConversations := 20
  const ListedConversations := 10
  const PreviewLength := 80

  datatype Message = Message(role: string, content: string)

  /**
   * A saved conversation. `updatedAt` is its ISO timestamp text, and conversations are
   * ordered by comparing that text, as the source sorts them; across UTC offsets
   * that order need not be time order.
   */
  datatype Conversation = Conversation(messages: seq<Message>, updatedAt: string, supportTicket: bool)

  /** `a` is at least as recent as `b`. */
  predicate NotOlder(a: string, b: string)
  {
    !StrLess(a, b)
  }

  /**
   * `kept` is `convs` cut to its `n` newest conversations: a sub-map of
   * `convs` of the right size, and nothing dropped is newer than anything
   * kept.
   */
  ghost predicate KeptNewest(convs: map<string, Conversation>, kept: map<string, Conversation>, n: nat)
  {
    && kept.Keys <= convs.Keys
    && (forall k :: k in kept ==> kept[k] == convs[k])
    && |kept| == (if |convs| > n then n else |convs|)
    && (forall d, k :: d in convs && d !in kept && k in kept ==> NotOlder(kept[k].updatedAt, convs[d].updatedAt))
  }

  /** The oldest conversation of a non-empty map. */
  method OldestId(convs: map<string, Conversation>) returns (id: string)
    requires convs != map[]
    ensures id in convs && forall k :: k in convs ==> NotOlder(convs[k].updatedAt, convs[id].updatedAt)
  {
    id :| id in convs;
    var remaining := convs.Keys - {id};
    StrLessIrreflexive(convs[id].updatedAt);
    while remaining != {}
      invariant id in convs && remaining <= convs.Keys
      invariant forall k :: k in convs && k !in remaining ==> NotOlder(convs[k].updatedAt, convs[id].updatedAt)
      decreases |remaining|
    {
      var k :| k in remaining;
      if StrLess(convs[k].updatedAt, convs[id].updatedAt) {
        var previous := id;
        forall v | v in convs && v !in remaining ensures NotOlder(convs[v].updatedAt, convs[k].updatedAt) {
          if StrLess(convs[v].updatedAt, convs[k].updatedAt) {
            StrLessTransitive(convs[v].updatedAt, convs[k].updatedAt, convs[previous].updatedAt);
          }
        }
        StrLessIrreflexive(convs[k].updatedAt);
        id := k;
      }
      remaining := remaining - {k};
    }
  }

  /** The trimming in `save_conversation`: the oldest conversations go until `n` are left. */
  method TrimToNewest(convs: map<string, Conversation>, n: nat) returns (kept: map<string, Conversation>)
    ensures KeptNewest(convs, kept, n)
  {
    kept := convs;
    while |kept| > n
      invariant kept.Keys <= convs.Keys && (forall k :: k in kept ==> kept[k] == convs[k])
      invariant |kept| == (if |convs| > n then |kept| else |convs|) && (|convs| > n ==> |kept| >= n)
      invariant forall d, k :: d in convs && d !in kept && k in kept ==> NotOlder(kept[k].updatedAt, convs[d].updatedAt)
      decreases |kept|
    {
      var oldest := OldestId(kept);
      kept := kept - {oldest};
    }
  }

  /** The stored history: per user, conversations by id. */
  class ChatHistory {
    var data: map<string, map<string, Conversation>>

    constructor ()
      ensures data == map[]
    {
      data := map[];
    }

    function ConversationsOf(username: string): map<string, Conversation>
      reads this
    {
      if username in data then data[username] else map[]
    }

    /**
     * `save_conversation`: stores the conversation under its id, then keeps
     * only the user's twenty newest; other users are untouched.
     */
    method SaveConversation(username: string, conversationId: string, messages: seq<Message>,
                            supportTicket: bool, updatedAt: string)
      modifies this
      ensures data.Keys == old(data).Keys + {username}
      ensures forall u :: u in old(data) && u != username ==> data[u] == old(data)[u]
      ensures KeptNewest(old(ConversationsOf(username))[conversationId := Conversation(messages, updatedAt, supportTicket)],
                         data[username], MaxConversations)
    {
      var convs := ConversationsOf(username)[conversationId := Conversation(messages, updatedAt, supportTicket)];
      var kept := convs;
      if |convs| > MaxConversations {
        kept := TrimToNewest(convs, MaxConversations);
      }
      data := data[username := kept];
    }
  }

  /** One line of the conversation list. */
  datatype Summary = Summary(id: string, preview: string, updatedAt: string, messageCount: nat, supportTicket: bool)

  /** The first 80 characters of the first user message, or nothing. */
  function Preview(messages: seq<Message>): (p: string)
    ensures |p| <= PreviewLength
  {
    if messages == [] then ""
    else if messages[0].role == "user" then
      Cut(messages[0].content)
    else Preview(messages[1..])
  }

  /** Without a user message the preview is empty; otherwise it is the cut first user message. */
  lemma {:induction false} PreviewMeaning(messages: seq<Message>)
    ensures (forall j :: 0 <= j < |messages| ==> messages[j].role != "user") ==> Preview(messages) == ""
    ensures forall i :: (0 <= i < |messages| && messages[i].role == "user" &&
                         (forall j :: 0 <= j < i ==> messages[j].role != "user")) ==> Preview(messages) == Cut(messages[i].content)
  {
    if messages != [] && messages[0].role != "user" {
      PreviewMeaning(messages[1..]);
      forall i | 0 < i < |messages| && messages[i].role == "user" && (forall j :: 0 <= j < i ==> messages[j].role != "user")
        ensures Preview(messages[1..]) == Cut(messages[i].content)
      {
        assert messages[1..][i - 1] == messages[i];
        assert forall j :: 0 <= j < i - 1 ==> messages[1..][j] == messages[j + 1];
      }
      if forall j :: 0 <= j < |messages| ==> messages[j].role != "user" {
        assert forall j :: 0 <= j < |messages| - 1 ==> messages[1..][j] == messages[j + 1];
      }
    }
  }

  /** The first 80 characters of a text. */
  function Cut(c: string): (r: string)
  {
    if |c| <= PreviewLength then c else c[..PreviewLength]
  }

  function Summarize(id: string, c: Conversation): Summary
  {
    Summary(id, Preview(c.messages), c.updatedAt, |c.messages|, c.supportTicket)
  }

  /** The newest conversation among `ids`. */
  method NewestId(convs: map<string, Conversation>, ids: set<string>) returns (id: string)
    requires ids != {} && ids <= convs.Keys
    ensures id in ids && forall k :: k in ids ==> NotOlder(convs[id].updatedAt, convs[k].updatedAt)
  {
    id :| id in ids;
    var remaining := ids - {id};
    StrLessIrreflexive(convs[id].updatedAt);
    while remaining != {}
      invariant id in ids && remaining <= ids
      invariant forall k :: k in ids && k !in remaining ==> NotOlder(convs[id].updatedAt, convs[k].updatedAt)
      decreases |remaining|
    {
      var k :| k in remaining;
      if StrLess(convs[id].updatedAt, convs[k].updatedAt) {
        var previous := id;
        forall v | v in ids && v !in remaining ensures NotOlder(convs[k].updatedAt, convs[v].updatedAt) {
          if StrLess(convs[k].updatedAt, convs[v].updatedAt) {
            StrLessTransitive(convs[previous].updatedAt, convs[k].updatedAt, convs[v].updatedAt);
          }
        }
        StrLessIrreflexive(convs[k].updatedAt);
        id := k;
      }
      remaining := remaining - {k};
    }
  }

  /**
   * The sorting in `get_user_conversations`: the ids of the `n` newest
   * conversations, newest first.
   */
  method NewestIds(convs: map<string, Conversation>, n: nat) returns (ids: seq<string>)
    ensures |ids| == (if |convs| > n then n else |convs|)
    ensures forall i :: 0 <= i < |ids| ==> ids[i] in convs
    ensures forall i, j :: 0 <= i < j < |ids| ==> ids[i] != ids[j]
    ensures forall i, j :: 0 <= i < j < |ids| ==> NotOlder(convs[ids[i]].updatedAt, convs[ids[j]].updatedAt)
    ensures forall k, i :: k in convs && k !in ids && 0 <= i < |ids| ==>
      NotOlder(convs[ids[i]].updatedAt, convs[k].updatedAt)
  {
    var remaining := convs.Keys;
    ids := [];
    while |ids| < n && remaining != {}
      invariant |ids| <= n && NewestSoFar(convs, ids, remaining)
      decreases |remaining|
    {
      var id := NewestId(convs, remaining);
      NewestSoFarStep(convs, ids, remaining, id);
      ids := ids + [id];
      remaining := remaining - {id};
    }
  }

  /** The loop state of `NewestIds`: `ids` are the newest conversations, newest first, and `remaining` the rest. */
  ghost predicate NewestSoFar(convs: map<string, Conversation>, ids: seq<string>, remaining: set<string>)
  {
    SplitKeys(convs, ids, remaining) && NewestFirst(convs, ids, remaining)
  }

  /** `ids` (without repeats) and `remaining` together are the keys of `convs`. */
  ghost predicate SplitKeys(convs: map<string, Conversation>, ids: seq<string>, remaining: set<string>)
  {
    && remaining <= convs.Keys
    && |ids| + |remaining| == |convs|
    && (forall k :: k in convs ==> (k in remaining <==> k !in ids))
    && (forall i :: 0 <= i < |ids| ==> ids[i] in convs)
    && (forall i, j :: 0 <= i < j < |ids| ==> ids[i] != ids[j])
  }

  /** `ids` is newest first and none of `remaining` is newer than one of `ids`. */
  ghost predicate NewestFirst(convs: map<string, Conversation>, ids: seq<string>, remaining: set<string>)
    requires forall i :: 0 <= i < |ids| ==> ids[i] in convs
    requires remaining <= convs.Keys
  {
    && (forall i, j :: 0 <= i < j < |ids| ==> NotOlder(convs[ids[i]].updatedAt, convs[ids[j]].updatedAt))
    && (forall k, i :: k in remaining && 0 <= i < |ids| ==> NotOlder(convs[ids[i]].updatedAt, convs[k].updatedAt))
  }

  lemma NewestSoFarStep(convs: map<string, Conversation>, ids: seq<string>, remaining: set<string>, id: string)
    requires NewestSoFar(convs, ids, remaining)
    requires id in remaining && forall k :: k in remaining ==> NotOlder(convs[id].updatedAt, convs[k].updatedAt)
    ensures NewestSoFar(convs, ids + [id], remaining - {id})
  {
    SplitKeysStep(convs, ids, remaining, id);
    NewestFirstStep(convs, ids, remaining, id);
  }

  lemma SplitKeysStep(convs: map<string, Conversation>, ids: seq<string>, remaining: set<string>, id: string)
    requires SplitKeys(convs, ids, remaining) && id in remaining
    ensures SplitKeys(convs, ids + [id], remaining - {id})
  {
    var ids', remaining' := ids + [id], remaining - {id};
    assert |remaining'| == |remaining| - 1;
    forall k | k in convs
      ensures k in remaining' <==> k !in ids'
    {
      assert k in ids' <==> k in ids || k == id;
    }
  }

  lemma NewestFirstStep(convs: map<string, Conversation>, ids: seq<string>, remaining: set<string>, id: string)
    requires SplitKeys(convs, ids, remaining) && NewestFirst(convs, ids, remaining)
    requires id in remaining && forall k :: k in remaining ==> NotOlder(convs[id].updatedAt, convs[k].updatedAt)
    ensures SplitKeys(convs, ids + [id], remaining - {id}) ==> NewestFirst(convs, ids + [id], remaining - {id})
  {
  }

  /**
   * `get_user_conversations`: at most ten summaries, newest first, each of
   * a distinct conversation of the user, and no conversation left out is
   * newer than one listed.
   */
  method GetUserConversations(history: map<string, map<string, Conversation>>, username: string)
    returns (list: seq<Summary>)
    ensures var convs := if username in history then history[username] else map[];
      && |list| == (if |convs| > ListedConversations then ListedConversations else |convs|)
      && (forall i :: 0 <= i < |list| ==> list[i].id in convs && list[i] == Summarize(list[i].id, convs[list[i].id]))
      && (forall i, j :: 0 <= i < j < |list| ==> list[i].id != list[j].id)
      && (forall i, j :: 0 <= i < j < |list| ==> NotOlder(list[i].updatedAt, list[j].updatedAt))
      && (forall k, i :: k in convs && 0 <= i < |list| && (forall j :: 0 <= j < |list| ==> list[j].id != k) ==>
            NotOlder(list[i].updatedAt, convs[k].updatedAt))
  {
    var convs := if username in history then history[username] else map[];
    var ids := NewestIds(convs, ListedConversations);
    list := seq(|ids|, i requires 0 <= i < |ids| => Summarize(ids[i], convs[ids[i]]));
    SummariesNewest(convs, ids, list);
  }

  /** Summarizing the newest ids keeps their order and what they leave out. */
  lemma SummariesNewest(convs: map<string, Conversation>, ids: seq<string>, list: seq<Summary>)
    requires forall i :: 0 <= i < |ids| ==> ids[i] in convs
    requires forall i, j :: 0 <= i < j < |ids| ==> ids[i] != ids[j]
    requires forall i, j :: 0 <= i < j < |ids| ==> NotOlder(convs[ids[i]].updatedAt, convs[ids[j]].updatedAt)
    requires forall k, i :: k in convs && k !in ids && 0 <= i < |ids| ==>
      NotOlder(convs[ids[i]].updatedAt, convs[k].updatedAt)
    requires |list| == |ids| && forall i :: 0 <= i < |ids| ==> list[i] == Summarize(ids[i], convs[ids[i]])
    ensures forall i :: 0 <= i < |list| ==> list[i].id in convs && list[i] == Summarize(list[i].id, convs[list[i].id])
    ensures forall i, j :: 0 <= i < j < |list| ==> list[i].id != list[j].id
    ensures forall i, j :: 0 <= i < j < |list| ==> NotOlder(list[i].updatedAt, list[j].updatedAt)
    ensures forall k, i :: k in convs && 0 <= i < |list| && (forall j :: 0 <= j < |list| ==> list[j].id != k) ==>
      NotOlder(list[i].updatedAt, convs[k].updatedAt)
  {
    forall k, i | k in convs && 0 <= i < |list| && (forall j :: 0 <= j < |list| ==> list[j].id != k)
      ensures NotOlder(list[i].updatedAt, convs[k].updatedAt)
    {
      forall j | 0 <= j < |ids| ensures ids[j] != k {
        assert list[j].id == ids[j];
      }
      assert ids[i] == list[i].id;
    }
  }
}
