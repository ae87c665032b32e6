/**
 * The lookup helpers of the server's utility module: finding an id by a
 * case-insensitive name, falling back to a default for a falsy value, the
 * open/closed label, and the way project and issue identifiers are told
 * apart before the service is asked.
 *
 * The service calls (`getProjectBySlug`, `getIssueByRef`, `getIssue`) are
 * parameters; their results stand for what the awaited promise settles to.
 */
module Utils {
  import opened Results
  import opened JsValues

  // ---------------------------------------------------------------------
  // Finding an id by name

  /** `v.toLowerCase()`, where `v` is the value of the expression `what`. */
  function CallLower(v: JsValue, what: string): (r: Result<string>)
    ensures r.Ok? <==> v.Str?
    ensures r.Ok? ==> r.value == Lower(v.s)
  {
    match v
    case Str(s) => Ok(Lower(s))
    case Undefined => Err(TypeError("Cannot read properties of undefined (reading 'toLowerCase')"))
    case Null => Err(TypeError("Cannot read properties of null (reading 'toLowerCase')"))
    case _ => Err(TypeError(what + ".toLowerCase is not a function"))
  }

  /** A record whose `name` is a string. */
  predicate Named(item: JsValue) {
    item.Obj? && "name" in item.props && item.props["name"].Str?
  }

  /** A named record whose name, in lower case, is `key`. */
  predicate NameIs(item: JsValue, key: string) {
    Named(item) && Lower(item.props["name"].s) == key
  }

  /**
   * `items.find(x => x.name.toLowerCase() === name.toLowerCase())`: the
   * callback reads the element's name first, then lower-cases the name
   * sought; the first element for which it is true is the result, and
   * undefined when there is none. A throw in the callback ends the search.
   */
  function FindByName(items: seq<JsValue>, name: JsValue, itemVar: string, nameVar: string): (r: Result<JsValue>)
    ensures r.Ok? && !r.value.Undefined? ==> r.value in items
    ensures items == [] ==> r == Ok(Undefined)
  {
    if items == [] then Ok(Undefined)
    else
      match Property(items[0], "name")
      case Err(e) => Err(e)
      case Ok(n) =>
        match CallLower(n, itemVar + ".name")
        case Err(e) => Err(e)
        case Ok(a) =>
          match CallLower(name, nameVar)
          case Err(e) => Err(e)
          case Ok(b) => if a == b then Ok(items[0]) else FindByName(items[1..], name, itemVar, nameVar)
  }

  /**
   * `if (!name) return undefined; return collection.find(...)?.id;` with the
   * source's variable names, which only the error texts show.
   */
  function FindId(collection: JsValue, name: JsValue, collectionVar: string, itemVar: string, nameVar: string): (r: Result<JsValue>)
    ensures !Truthy(name) ==> r == Ok(Undefined)
    ensures r.Err? ==> Truthy(name)
    ensures Truthy(name) && !collection.Arr? ==> r.Err?
    ensures Truthy(name) && collection == Arr([]) ==> r == Ok(Undefined)
  {
    if !Truthy(name) then Ok(Undefined)
    else if !collection.Arr? then
      match Property(collection, "find")
      case Err(e) => Err(e)
      case Ok(_) => Err(TypeError(collectionVar + ".find is not a function"))
    else
      match FindByName(collection.elems, name, itemVar, nameVar)
      case Err(e) => Err(e)
      case Ok(item) => if item.Undefined? then Ok(Undefined) else Property(item, "id")
  }

  /** `findIdByName(collection, name)` */
  function FindIdByName(collection: JsValue, name: JsValue): (r: Result<JsValue>)
    ensures !Truthy(name) ==> r == Ok(Undefined)
    ensures r.Err? ==> Truthy(name)
  {
    FindId(collection, name, "collection", "item", "name")
  }

  /** `findStatusIdByName(statuses, statusName)` */
  function FindStatusIdByName(statuses: JsValue, statusName: JsValue): (r: Result<JsValue>)
    ensures !Truthy(statusName) ==> r == Ok(Undefined)
    ensures r.Err? ==> Truthy(statusName)
  {
    FindId(statuses, statusName, "statuses", "s", "statusName")
  }

  /**
   * The reference definition of the search: the index of the first record
   * whose lower-case name is `key`, or `|items|` when there is none.
   */
  function FirstNamed(items: seq<JsValue>, key: string): (i: nat)
    ensures i <= |items|
    ensures i < |items| ==> NameIs(items[i], key)
    ensures forall j | 0 <= j < i :: !NameIs(items[j], key)
  {
    if items == [] then 0
    else if NameIs(items[0], key) then 0
    else 1 + FirstNamed(items[1..], key)
  }

  /**
   * Over records that all have a string name, the search finds the first
   * record whose name equals the one sought ignoring case.
   */
  lemma {:induction false} FindByNameFirst(items: seq<JsValue>, s: string, itemVar: string, nameVar: string)
    requires forall k | 0 <= k < |items| :: Named(items[k])
    ensures var i := FirstNamed(items, Lower(s));
      FindByName(items, Str(s), itemVar, nameVar) == Ok(if i < |items| then items[i] else Undefined)
    decreases |items|
  {
    if items != [] {
      assert Property(items[0], "name") == Ok(items[0].props["name"]);
      if !NameIs(items[0], Lower(s)) {
        FindByNameFirst(items[1..], s, itemVar, nameVar);
      }
    }
  }

  /**
   * `findIdByName` over records that all have a string name: a non-empty
   * name gives the `id` of the first record with that name ignoring case,
   * and undefined when no record has it.
   */
  lemma {:induction false} FindIdFirst(items: seq<JsValue>, s: string)
    requires forall k | 0 <= k < |items| :: Named(items[k])
    requires s != ""
    ensures var i := FirstNamed(items, Lower(s));
      FindIdByName(Arr(items), Str(s)) == Ok(if i < |items| then Property(items[i], "id").value else Undefined)
  {
    FindByNameFirst(items, s, "item", "name");
  }

  /** Two names that agree in lower case find the same record. */
  lemma {:induction false} FindByNameIgnoresCase(items: seq<JsValue>, s: string, t: string, itemVar: string, nameVar: string)
    requires Lower(s) == Lower(t)
    ensures FindByName(items, Str(s), itemVar, nameVar) == FindByName(items, Str(t), itemVar, nameVar)
    decreases |items|
  {
    if items != [] {
      FindByNameIgnoresCase(items[1..], s, t, itemVar, nameVar);
    }
  }

  /** Lower-casing twice is lower-casing once. */
  lemma LowerTwice(s: string)
    ensures Lower(Lower(s)) == Lower(s)
  {
  }

  /** Upper- and lower-case spellings of a name give the same id, or the same error. */
  lemma FindIdIgnoresCase(collection: JsValue, s: string)
    ensures FindIdByName(collection, Str(Upper(s))) == FindIdByName(collection, Str(s))
  {
    assert Lower(Upper(s)) == Lower(s);
    if collection.Arr? {
      FindByNameIgnoresCase(collection.elems, Upper(s), s, "item", "name");
    }
  }

  /** The two lookups differ in their variable names only, so they agree except in error texts. */
  lemma StatusLookupSameAsIdLookup(collection: JsValue, name: JsValue)
    ensures FindStatusIdByName(collection, name).Ok? <==> FindIdByName(collection, name).Ok?
    ensures FindStatusIdByName(collection, name).Ok? ==> FindStatusIdByName(collection, name) == FindIdByName(collection, name)
  {
    if Truthy(name) && collection.Arr? {
      FindByNameSameResult(collection.elems, name, "s", "statusName", "item", "name");
    }
  }

  /** The variable names in the error texts do not change whether, or what, the search finds. */
  lemma {:induction false} FindByNameSameResult(items: seq<JsValue>, name: JsValue, v1: string, n1: string, v2: string, n2: string)
    ensures FindByName(items, name, v1, n1).Ok? <==> FindByName(items, name, v2, n2).Ok?
    ensures FindByName(items, name, v1, n1).Ok? ==> FindByName(items, name, v1, n1) == FindByName(items, name, v2, n2)
    decreases |items|
  {
    if items != [] {
      var n := Property(items[0], "name");
      if n.Ok? && n.value.Str? && name.Str? {
        if Lower(n.value.s) != Lower(name.s) {
          FindByNameSameResult(items[1..], name, v1, n1, v2, n2);
        }
      } else {
        assert FindByName(items, name, v1, n1).Err? && FindByName(items, name, v2, n2).Err?;
      }
    }
  }

  // ---------------------------------------------------------------------
  // Labels and defaults

  /** `STATUS_LABELS.UNKNOWN`, the default of `getSafeValue`. */
  const Unknown := "Unknown"

  /** `getStatusLabel(closed)`: 'Closed' for a truthy flag, 'Active' otherwise. */
  function GetStatusLabel(closed: JsValue): (r: string)
    ensures r == "Closed" <==> Truthy(closed)
    ensures r == "Closed" || r == "Active"
  {
    if Truthy(closed) then "Closed" else "Active"
  }

  /**
   * `getSafeValue(value, defaultValue = STATUS_LABELS.UNKNOWN)`:
   * `value || defaultValue`, where a default passed as `undefined` is
   * replaced by 'Unknown' as a left-out one is.
   */
  function GetSafeValue(value: JsValue, defaultValue: JsValue): (r: JsValue)
    ensures Truthy(value) ==> r == value
    ensures !Truthy(value) && !defaultValue.Undefined? ==> r == defaultValue
    ensures !Truthy(value) && defaultValue.Undefined? ==> r == Str(Unknown)
    ensures !r.Undefined?
  {
    var fallback := if defaultValue.Undefined? then Str(Unknown) else defaultValue;
    if Truthy(value) then value else fallback
  }

  /** `getSafeValue(value)` with the default left out: the same as passing `undefined`. */
  function GetSafeValueOrUnknown(value: JsValue): (r: JsValue)
    ensures r == value || r == Str(Unknown)
    ensures Truthy(r)
  {
    GetSafeValue(value, Undefined)
  }

  /**
   * 0, the empty string, false, null and undefined all fall back to the
   * default, or to 'Unknown' when the default is itself undefined.
   */
  lemma FalsyValuesFallBack(d: JsValue, fallback: JsValue)
    requires fallback == if d.Undefined? then Str(Unknown) else d
    ensures GetSafeValue(Num(0), d) == fallback && GetSafeValue(Str(""), d) == fallback
    ensures GetSafeValue(Bool(false), d) == fallback
    ensures GetSafeValue(Null, d) == fallback && GetSafeValue(Undefined, d) == fallback
  {
  }

  /** Falling back twice to the same default is falling back once. */
  lemma SafeValueIdempotent(value: JsValue, d: JsValue)
    ensures GetSafeValue(GetSafeValue(value, d), d) == GetSafeValue(value, d)
  {
  }

  // ---------------------------------------------------------------------
  // Identifiers

  /** The service calls the resolvers delegate to. */
  datatype Service = Service(
    getProjectBySlug: JsValue -> Result<JsValue>,
    getIssueByRef: (JsValue, JsValue) -> Result<JsValue>,
    getIssue: JsValue -> Result<JsValue>)

  /** `isNaN(v)` */
  predicate IsNaN(v: JsValue, env: Env) {
    ToNumber(v, env).None?
  }

  /**
   * `resolveProjectId(projectIdentifier)`: an identifier that reads as a
   * number is the id itself; anything else is a slug, and the id is the `id`
   * of the project the service finds for it.
   */
  function ResolveProjectId(svc: Service, ident: JsValue, env: Env): (r: Result<JsValue>)
    ensures !IsNaN(ident, env) ==> r == Ok(ident)
    ensures IsNaN(ident, env) && svc.getProjectBySlug(ident).Ok? && svc.getProjectBySlug(ident).value.Obj?
      ==> r == Property(svc.getProjectBySlug(ident).value, "id")
  {
    if !IsNaN(ident, env) then Ok(ident)
    else
      match svc.getProjectBySlug(ident)
      case Err(e) => Err(e)
      case Ok(project) => Property(project, "id")
  }

  /** The error `resolveIssue` throws for a reference without a project. */
  const NeedsProject := "Project identifier is required when using issue reference number"

  /** `issueIdentifier.startsWith('#')` */
  function StartsWithHash(ident: JsValue): (r: Result<bool>)
    ensures r.Ok? <==> ident.Str?
    ensures r.Ok? ==> (r.value <==> |ident.s| > 0 && ident.s[0] == '#')
  {
    match ident
    case Str(s) => StartsWithChar(s, '#'); Ok(StartsWith(s, "#"))
    case Undefined => Err(TypeError("Cannot read properties of undefined (reading 'startsWith')"))
    case Null => Err(TypeError("Cannot read properties of null (reading 'startsWith')"))
    case _ => Err(TypeError("issueIdentifier.startsWith is not a function"))
  }

  /**
   * `resolveIssue(issueIdentifier, projectIdentifier)`: `#<ref>` is a
   * reference number inside a project, which must then be given; anything
   * else is an issue id.
   */
  function ResolveIssue(svc: Service, ident: JsValue, project: JsValue, env: Env): (r: Result<JsValue>)
    ensures ident.Str? && ident.s != [] && ident.s[0] == '#' && !Truthy(project) ==> r == Err(Error(NeedsProject))
    ensures ident.Str? && (ident.s == [] || ident.s[0] != '#') ==> r == svc.getIssue(ident)
    ensures !ident.Str? ==> r.Err? && r.error.TypeError?
  {
    match StartsWithHash(ident)
    case Err(e) => Err(e)
    case Ok(byRef) =>
      if byRef then
        if !Truthy(project) then Err(Error(NeedsProject))
        else
          match ResolveProjectId(svc, project, env)
          case Err(e) => Err(e)
          case Ok(projectId) => svc.getIssueByRef(Str(ident.s[1..]), projectId)
      else svc.getIssue(ident)
  }

  /**
   * A reference number inside a given project goes to `getIssueByRef` with
   * the text after `#` and the id the project identifier resolves to, be it
   * a numeric id or a slug; when resolving fails, that error is thrown.
   */
  lemma ReferenceLookup(svc: Service, ref: string, project: JsValue, env: Env)
    requires Truthy(project)
    ensures ResolveProjectId(svc, project, env).Ok? ==>
      ResolveIssue(svc, Str("#" + ref), project, env) == svc.getIssueByRef(Str(ref), ResolveProjectId(svc, project, env).value)
    ensures ResolveProjectId(svc, project, env).Err? ==>
      ResolveIssue(svc, Str("#" + ref), project, env) == ResolveProjectId(svc, project, env)
  {
    assert ("#" + ref)[1..] == ref;
  }

  /** A numeric project identifier is passed on unchanged. */
  lemma NumericProjectLookup(svc: Service, ref: string, project: JsValue, env: Env)
    requires Truthy(project) && !IsNaN(project, env)
    ensures ResolveIssue(svc, Str("#" + ref), project, env) == svc.getIssueByRef(Str(ref), project)
  {
    ReferenceLookup(svc, ref, project, env);
  }

  /** A reference without a project fails the same way whatever the service would answer. */
  lemma NoProjectNoCall(svc1: Service, svc2: Service, ref: string, project: JsValue, env: Env)
    requires !Truthy(project)
    ensures ResolveIssue(svc1, Str("#" + ref), project, env) == ResolveIssue(svc2, Str("#" + ref), project, env)
    ensures ResolveIssue(svc1, Str("#" + ref), project, env).Err?
  {
  }

  /** Without the `#` prefix the project identifier is not looked at. */
  lemma IdIgnoresProject(svc: Service, ident: string, p1: JsValue, p2: JsValue, env: Env)
    requires ident == [] || ident[0] != '#'
    ensures ResolveIssue(svc, Str(ident), p1, env) == ResolveIssue(svc, Str(ident), p2, env)
  {
  }
}
