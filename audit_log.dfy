/**
 * `src/pages/AuditLog.tsx`: the one-line summary of an audit entry, the
 * badge of its action, the counts at the top of the page, and the gate
 * that lets only administrators load the log.
 */
module AuditLog {
  import opened Wrappers
  import opened Text
  import opened Locale
  import opened Inventory
  import AuthContext

  /** A JSON value of a logged row; objects and arrays are not modelled, numbers are integers. */
  datatype JsValue = JStr(s: string) | JNum(n: int) | JBool(b: bool) | JNull

  /** A logged row, `old_data` or `new_data`; a missing key reads as `undefined`. */
  type Record = map<string, JsValue>

  datatype AuditEntry = AuditEntry(
    id: string,
    userEmail: Option<string>,
    action: string,
    tableName: string,
    oldData: Option<Record>,
    newData: Option<Record>,
    createdAt: string)

  /** `record[key]`, `None` standing for `undefined`. */
  function Get(r: Record, key: string): Option<JsValue> {
    if key in r then Some(r[key]) else None
  }

  /** JavaScript truthiness. */
  predicate Truthy(v: Option<JsValue>) {
    match v
    case None => false
    case Some(JStr(s)) => s != ""
    case Some(JNum(n)) => n != 0
    case Some(JBool(b)) => b
    case Some(JNull) => false
  }

  /** How a value prints inside a template literal. */
  function Show(v: Option<JsValue>): string {
    match v
    case None => "undefined"
    case Some(JStr(s)) => s
    case Some(JNum(n)) => IntToString(n)
    case Some(JBool(b)) => if b then "true" else "false"
    case Some(JNull) => "null"
  }

  /** `value || "-"`, printed. */
  function OrDash(v: Option<JsValue>): (r: string)
    ensures Truthy(v) ==> r == Show(v)
    ensures !Truthy(v) ==> r == "-"
  {
    if Truthy(v) then Show(v) else "-"
  }

  /** The fields an update summary compares, in the order it lists them. */
  const TrackedKeys: seq<string> := ["name", "category", "quantity", "price", "low_stock_threshold"]

  /** `old[key] !== new[key]` */
  predicate Differs(o: Record, n: Record, key: string) {
    Get(o, key) != Get(n, key)
  }

  /** `` `${key}: ${old[key]} → ${new[key]}` `` */
  function ChangeLine(o: Record, n: Record, key: string): string {
    key + ": " + Show(Get(o, key)) + " → " + Show(Get(n, key))
  }

  /** The lines `forEach` pushes, visiting `keys` in order. */
  function Changes(o: Record, n: Record, keys: seq<string>): seq<string>
    decreases |keys|
  {
    if keys == [] then []
    else
      var rest := Changes(o, n, keys[1..]);
      if Differs(o, n, keys[0]) then [ChangeLine(o, n, keys[0])] + rest else rest
  }

  /** The keys among `keys` whose values differ, in order. */
  function DifferingKeys(o: Record, n: Record, keys: seq<string>): (r: seq<string>)
    ensures forall i :: 0 <= i < |r| ==> r[i] in keys && Differs(o, n, r[i])
    ensures forall i :: 0 <= i < |keys| && Differs(o, n, keys[i]) ==> keys[i] in r
  {
    Filter(keys, k => Differs(o, n, k))
  }

  /** The change lines are exactly one line per differing key, in the keys' order. */
  lemma {:induction false} ChangesOfDifferingKeys(o: Record, n: Record, keys: seq<string>)
    ensures |Changes(o, n, keys)| == |DifferingKeys(o, n, keys)|
    ensures forall i :: 0 <= i < |Changes(o, n, keys)| ==>
      Changes(o, n, keys)[i] == ChangeLine(o, n, DifferingKeys(o, n, keys)[i])
    decreases |keys|
  {
    if keys != [] {
      ChangesOfDifferingKeys(o, n, keys[1..]);
      assert DifferingKeys(o, n, keys[1..]) == Filter(keys[1..], k => Differs(o, n, k));
    }
  }

  /** `getChangeSummary` */
  function Summary(e: AuditEntry): string {
    if e.action == "create" && e.newData.Some? then OrDash(Get(e.newData.value, "name"))
    else if e.action == "delete" && e.oldData.Some? then OrDash(Get(e.oldData.value, "name"))
    else if e.action == "update" && e.oldData.Some? && e.newData.Some? then
      var changes := Changes(e.oldData.value, e.newData.value, TrackedKeys);
      if |changes| > 0 then Join(changes, ", ") else "-"
    else "-"
  }

  /** `getChangeSummary`, with the update case's loop over the tracked keys. */
  method ChangeSummary(e: AuditEntry) returns (s: string)
    ensures s == Summary(e)
  {
    if e.action == "create" && e.newData.Some? {
      return OrDash(Get(e.newData.value, "name"));
    }
    if e.action == "delete" && e.oldData.Some? {
      return OrDash(Get(e.oldData.value, "name"));
    }
    if e.action == "update" && e.oldData.Some? && e.newData.Some? {
      var changes := CollectChanges(e.oldData.value, e.newData.value, TrackedKeys);
      return if |changes| > 0 then Join(changes, ", ") else "-";
    }
    return "-";
  }

  /** `keys.forEach(...)`: one line pushed per key whose values differ, in the keys' order. */
  method CollectChanges(o: Record, n: Record, keys: seq<string>) returns (changes: seq<string>)
    ensures changes == Changes(o, n, keys)
  {
    changes := [];
    var i := 0;
    while i < |keys|
      invariant 0 <= i <= |keys|
      invariant changes + Changes(o, n, keys[i..]) == Changes(o, n, keys)
    {
      var key := keys[i];
      assert keys[i..][1..] == keys[i + 1..];
      if Get(o, key) != Get(n, key) {
        changes := changes + [ChangeLine(o, n, key)];
      }
      i := i + 1;
    }
    assert keys[i..] == [];
  }

  /** A creation or deletion is summarised by the row's name, or a dash when it has none. */
  lemma CreateDeleteSummary(e: AuditEntry)
    ensures e.action == "create" && e.newData.Some? ==>
      Summary(e) == (if Truthy(Get(e.newData.value, "name")) then Show(Get(e.newData.value, "name")) else "-")
    ensures e.action == "delete" && e.oldData.Some? ==>
      Summary(e) == (if Truthy(Get(e.oldData.value, "name")) then Show(Get(e.oldData.value, "name")) else "-")
  {
  }

  /**
   * An update is summarised by one `key: old → new` line per tracked key
   * whose value changed, in the fixed key order, joined by ", "; when
   * none changed, by a dash.
   */
  lemma UpdateSummary(e: AuditEntry)
    requires e.action == "update" && e.oldData.Some? && e.newData.Some?
    ensures var ks := DifferingKeys(e.oldData.value, e.newData.value, TrackedKeys);
      && (ks == [] ==> Summary(e) == "-")
      && (ks != [] ==> Summary(e) == Join(seq(|ks|, i requires 0 <= i < |ks| => ChangeLine(e.oldData.value, e.newData.value, ks[i])), ", "))
  {
    var o := e.oldData.value;
    var n := e.newData.value;
    ChangesOfDifferingKeys(o, n, TrackedKeys);
    var ks := DifferingKeys(o, n, TrackedKeys);
    assert Changes(o, n, TrackedKeys) == seq(|ks|, i requires 0 <= i < |ks| => ChangeLine(o, n, ks[i]));
  }

  /** An update in which no tracked key changed, an unknown action, or missing data: a dash. */
  lemma DashCases(e: AuditEntry)
    ensures e.action != "create" && e.action != "delete" && e.action != "update" ==> Summary(e) == "-"
    ensures e.action == "update" && (e.oldData.None? || e.newData.None?) ==> Summary(e) == "-"
    ensures (e.action == "update" && e.oldData.Some? && e.newData.Some?
             && forall k :: k in TrackedKeys ==> !Differs(e.oldData.value, e.newData.value, k))
      ==> Summary(e) == "-"
  {
    if e.action == "update" && e.oldData.Some? && e.newData.Some? {
      UpdateSummary(e);
    }
  }

  // ---------------------------------------------------------------------
  // Action badge

  datatype Look = Green | Amber | Red | Grey

  datatype ActionBadge = ActionBadge(look: Look, text: string)

  /** `getActionBadge` */
  function ActionBadgeOf(action: string, lang: Language): (b: ActionBadge)
    ensures b.look == Grey <==> action != "create" && action != "update" && action != "delete"
    ensures b.look == Grey ==> b.text == action
  {
    match action
    case "create" => ActionBadge(Green, if lang == Ru then "Создание" else "Create")
    case "update" => ActionBadge(Amber, if lang == Ru then "Изменение" else "Update")
    case "delete" => ActionBadge(Red, if lang == Ru then "Удаление" else "Delete")
    case _ => ActionBadge(Grey, action)
  }

  /** The three known actions have three different looks. */
  lemma ActionLooksDistinct(lang: Language)
    ensures ActionBadgeOf("create", lang).look == Green
    ensures ActionBadgeOf("update", lang).look == Amber
    ensures ActionBadgeOf("delete", lang).look == Red
  {
  }

  // ---------------------------------------------------------------------
  // Counts and gate

  predicate IsCreate(e: AuditEntry) {
    e.action == "create"
  }

  predicate IsUpdate(e: AuditEntry) {
    e.action == "update"
  }

  /** The figures of the three cards: all entries, creations, updates. */
  datatype Counts = Counts(total: int, creates: int, updates: int)

  function CountsOf(logs: seq<AuditEntry>): Counts {
    Counts(|logs|, |Filter(logs, IsCreate)|, |Filter(logs, IsUpdate)|)
  }

  /** Creations and updates are counted separately and never exceed the entries. */
  lemma CountsBounded(logs: seq<AuditEntry>)
    ensures CountsOf(logs).creates <= CountsOf(logs).total
    ensures CountsOf(logs).updates <= CountsOf(logs).total
    ensures CountsOf(logs).creates + CountsOf(logs).updates <= CountsOf(logs).total
  {
    FilterSplit(logs, IsCreate, IsUpdate);
  }

  /** What the page does for the role it sees. */
  datatype Effect = RedirectHome | FetchLogs(limit: nat) | Wait

  /**
   * A known role other than administrator is sent home; an administrator
   * loads the newest 100 entries; without a role yet, nothing happens.
   */
  function EffectFor(role: Option<AuthContext.Role>): (r: Effect)
    ensures r.FetchLogs? <==> role == Some(AuthContext.Admin)
    ensures r.FetchLogs? ==> r.limit == 100
    ensures r == RedirectHome <==> role.Some? && role.value != AuthContext.Admin
  {
    if role.Some? && role.value != AuthContext.Admin then RedirectHome
    else if role == Some(AuthContext.Admin) then FetchLogs(100)
    else Wait
  }
}
