/**
 * The service's item-type lookup tables: the REST endpoint of an item type,
 * the object type its history is filed under, and the endpoint of its
 * attachments. Each is an object literal indexed by the item type, with
 * `||` supplying the issue entry for a type the table does not know.
 */
module TaigaEndpoints {
  import opened JsValues

  /** `API_ENDPOINTS` as the constants module defines it. */
  const ApiEndpoints: map<string, string> := map[
    "PROJECTS" := "/projects",
    "USER_STORIES" := "/userstories",
    "TASKS" := "/tasks",
    "ISSUES" := "/issues",
    "MILESTONES" := "/milestones",
    "USER_STORY_STATUSES" := "/userstory-statuses",
    "TASK_STATUSES" := "/task-statuses",
    "ISSUE_STATUSES" := "/issue-statuses",
    "PRIORITIES" := "/priorities",
    "SEVERITIES" := "/severities",
    "ISSUE_TYPES" := "/issue-types",
    "USERS_ME" := "/users/me"]

  /** `endpoints.NAME`: undefined for a name the object does not define. */
  function Constant(endpoints: map<string, string>, name: string): (r: JsValue)
    ensures name in endpoints <==> r.Str?
    ensures name in endpoints ==> r == Str(endpoints[name])
  {
    if name in endpoints then Str(endpoints[name]) else Undefined
  }

  /** `table[key] || fallback` */
  function LookupOr(table: map<string, JsValue>, key: string, fallback: JsValue): (r: JsValue)
    ensures key in table && Truthy(table[key]) ==> r == table[key]
    ensures !(key in table && Truthy(table[key])) ==> r == fallback
  {
    if key in table && Truthy(table[key]) then table[key] else fallback
  }

  /** The three item types the tools pass. */
  predicate KnownType(itemType: string) {
    itemType == "issue" || itemType == "user_story" || itemType == "task"
  }

  /** `getItemEndpoint(itemType)` */
  function ItemEndpoint(itemType: string): (r: JsValue)
    ensures r in {Str("/issues"), Str("/userstories"), Str("/tasks")}
  {
    var endpoints := map[
      "issue" := Constant(ApiEndpoints, "ISSUES"),
      "user_story" := Constant(ApiEndpoints, "USER_STORIES"),
      "task" := Constant(ApiEndpoints, "TASKS")];
    LookupOr(endpoints, itemType, Constant(ApiEndpoints, "ISSUES"))
  }

  /** `getHistoryObjectType(itemType)` */
  function HistoryObjectType(itemType: string): (r: JsValue)
    ensures r in {Str("issue"), Str("userstory"), Str("task")}
  {
    var types := map["issue" := Str("issue"), "user_story" := Str("userstory"), "task" := Str("task")];
    LookupOr(types, itemType, Str("issue"))
  }

  /**
   * The endpoint of each item type: `/issues`, `/userstories` and `/tasks`,
   * and `/issues` for every other type.
   */
  lemma ItemEndpoints(itemType: string)
    ensures ItemEndpoint("issue") == Str("/issues")
    ensures ItemEndpoint("user_story") == Str("/userstories")
    ensures ItemEndpoint("task") == Str("/tasks")
    ensures !KnownType(itemType) ==> ItemEndpoint(itemType) == Str("/issues")
  {
  }

  /**
   * The history object type: `userstory` for user stories, the type itself
   * for issues and tasks, and `issue` for every other type.
   */
  lemma HistoryObjectTypes(itemType: string)
    ensures HistoryObjectType("user_story") == Str("userstory")
    ensures KnownType(itemType) && itemType != "user_story" ==> HistoryObjectType(itemType) == Str(itemType)
    ensures !KnownType(itemType) ==> HistoryObjectType(itemType) == Str("issue")
  {
  }

  /**
   * The two tables sort item types into the same three kinds: two types share
   * an endpoint exactly when they share a history object type.
   */
  lemma TablesAgree(t: string, u: string)
    ensures ItemEndpoint(t) == ItemEndpoint(u) <==> HistoryObjectType(t) == HistoryObjectType(u)
  {
    ItemEndpoints(t);
    ItemEndpoints(u);
    HistoryObjectTypes(t);
    HistoryObjectTypes(u);
  }

  // ---------------------------------------------------------------------
  // Attachment endpoints

  /**
   * `getAttachmentEndpoint(itemType)` as written: it reads
   * `ISSUE_ATTACHMENTS`, `USERSTORY_ATTACHMENTS` and `TASK_ATTACHMENTS`
   * from the endpoint constants, which define none of them.
   */
  function AttachmentEndpointAsWritten(itemType: string): (r: JsValue)
  {
    var endpoints := map[
      "issue" := Constant(ApiEndpoints, "ISSUE_ATTACHMENTS"),
      "user_story" := Constant(ApiEndpoints, "USERSTORY_ATTACHMENTS"),
      "task" := Constant(ApiEndpoints, "TASK_ATTACHMENTS")];
    LookupOr(endpoints, itemType, Constant(ApiEndpoints, "ISSUE_ATTACHMENTS"))
  }

  /** As written, every item type gets undefined, never `/issues/attachments`. */
  lemma AttachmentEndpointUndefined(itemType: string)
    ensures AttachmentEndpointAsWritten(itemType) == Undefined
    ensures AttachmentEndpointAsWritten("issue") != Str("/issues/attachments")
  {
    assert "ISSUE_ATTACHMENTS" !in ApiEndpoints;
  }

  /** The endpoint constants with the three attachment endpoints added. */
  const AttachmentEndpoints: map<string, string> := ApiEndpoints + map[
    "ISSUE_ATTACHMENTS" := "/issues/attachments",
    "USERSTORY_ATTACHMENTS" := "/userstories/attachments",
    "TASK_ATTACHMENTS" := "/tasks/attachments"]

  /** `getAttachmentEndpoint(itemType)` over constants that define the attachment endpoints. */
  function AttachmentEndpoint(itemType: string): (r: JsValue)
  {
    var endpoints := map[
      "issue" := Constant(AttachmentEndpoints, "ISSUE_ATTACHMENTS"),
      "user_story" := Constant(AttachmentEndpoints, "USERSTORY_ATTACHMENTS"),
      "task" := Constant(AttachmentEndpoints, "TASK_ATTACHMENTS")];
    LookupOr(endpoints, itemType, Constant(AttachmentEndpoints, "ISSUE_ATTACHMENTS"))
  }

  /** With the constants defined, each type gets its own attachment endpoint. */
  lemma AttachmentEndpointsDefined(itemType: string)
    ensures AttachmentEndpoint("issue") == Str("/issues/attachments")
    ensures AttachmentEndpoint("user_story") == Str("/userstories/attachments")
    ensures AttachmentEndpoint("task") == Str("/tasks/attachments")
    ensures !KnownType(itemType) ==> AttachmentEndpoint(itemType) == Str("/issues/attachments")
  {
    assert AttachmentEndpoints["ISSUE_ATTACHMENTS"] == "/issues/attachments";
    assert AttachmentEndpoints["USERSTORY_ATTACHMENTS"] == "/userstories/attachments";
    assert AttachmentEndpoints["TASK_ATTACHMENTS"] == "/tasks/attachments";
  }

  /** The three attachment endpoints spelled as item endpoint and suffix. */
  lemma AttachmentSuffix()
    ensures "/issues" + "/attachments" == "/issues/attachments"
    ensures "/userstories" + "/attachments" == "/userstories/attachments"
    ensures "/tasks" + "/attachments" == "/tasks/attachments"
  {
  }

  /**
   * An item's attachments live under the item's own endpoint, unknown types
   * included.
   */
  lemma AttachmentUnderItem(itemType: string)
    ensures AttachmentEndpoint(itemType) == Str(ItemEndpoint(itemType).s + "/attachments")
  {
    ItemEndpoints(itemType);
    AttachmentEndpointsDefined(itemType);
    AttachmentSuffix();
  }
}
