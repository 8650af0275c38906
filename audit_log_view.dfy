/**
 * The audit-log page: the colour given to an action name and the sentence
 * rendered from a log record's JSON details (app/admin/logs/page.tsx).
 */
module AuditLogView {
  import opened Wrappers
  import opened Json
  import Text

  const SuccessColor := "hsl(var(--success))"
  const DestructiveColor := "hsl(var(--destructive))"
  const PrimaryColor := "hsl(var(--primary))"
  const MutedColor := "hsl(var(--muted-foreground))"

  /** The colour of an action: CREATE wins over DELETE, which wins over UPDATE/RESET. */
  function GetActionColor(action: string): (c: string)
    ensures c == SuccessColor <==> Text.Contains(action, "CREATE")
    ensures c == DestructiveColor <==> !Text.Contains(action, "CREATE") && Text.Contains(action, "DELETE")
    ensures c == PrimaryColor <==>
      && !Text.Contains(action, "CREATE") && !Text.Contains(action, "DELETE")
      && (Text.Contains(action, "UPDATE") || Text.Contains(action, "RESET"))
    ensures c in {SuccessColor, DestructiveColor, PrimaryColor, MutedColor}
  {
    if Text.Contains(action, "CREATE") then SuccessColor
    else if Text.Contains(action, "DELETE") then DestructiveColor
    else if Text.Contains(action, "UPDATE") || Text.Contains(action, "RESET") then PrimaryColor
    else MutedColor
  }

  /** An action naming both CREATE and DELETE is coloured as a creation. */
  lemma CreateBeatsDelete()
    ensures GetActionColor("X_CREATE_DELETE") == SuccessColor
  {
    assert Text.StartsWith("X_CREATE_DELETE"[2..], "CREATE");
    assert Text.Contains("X_CREATE_DELETE"[1..], "CREATE");
  }

  /** The detail keys that may name the target of an action, in the order they are tried. */
  const TargetKeys := ["targetUsername", "createdUsername", "eventName", "deletedEventName", "deletedUsername"]

  /** `d[keys[0]] || d[keys[1]] || ... || null`. */
  function FirstTruthy(d: Json, keys: seq<string>): (r: Option<Json>)
    ensures r == Some(JNull) <==> forall i :: 0 <= i < |keys| ==> !Truthy(Prop(d, keys[i]))
    ensures r != Some(JNull) ==>
      exists i :: 0 <= i < |keys| && r == Prop(d, keys[i]) && Truthy(r)
                  && forall j :: 0 <= j < i ==> !Truthy(Prop(d, keys[j]))
  {
    if |keys| == 0 then Some(JNull)
    else Or(Prop(d, keys[0]), FirstTruthy(d, keys[1..]))
  }

  /** The target named in a sentence: the first truthy of the five target keys, else null. */
  function Target(d: Json): Option<Json>
  {
    FirstTruthy(d, TargetKeys)
  }

  /** The label of an updated field in a user sentence. */
  function UserFieldLabel(f: Json): (r: Json)
    ensures f == JStr("hasSeenWelcome") ==> r == JStr("welcome status")
    ensures f == JStr("avatarIndex") ==> r == JStr("profile avatar")
    ensures f != JStr("hasSeenWelcome") && f != JStr("avatarIndex") ==> r == f
  {
    if f == JStr("hasSeenWelcome") then JStr("welcome status")
    else if f == JStr("avatarIndex") then JStr("profile avatar")
    else f
  }

  /** The label of an updated field in a team sentence. */
  function TeamFieldLabel(f: Json): Json
  {
    if f == JStr("iconIndex") then JStr("team icon") else f
  }

  /** `values.join(", ")`: null elements render empty. */
  function JoinValues(values: seq<Json>): string
  {
    Text.Join(seq(|values|, i requires 0 <= i < |values| => if values[i] == JNull then "" else ToStr(values[i])), ", ")
  }

  function UserFields(a: seq<Json>): string
  {
    JoinValues(seq(|a|, i requires 0 <= i < |a| => UserFieldLabel(a[i])))
  }

  function TeamFields(a: seq<Json>): string
  {
    JoinValues(seq(|a|, i requires 0 <= i < |a| => TeamFieldLabel(a[i])))
  }

  /** `v?.length > 0` for a property that may be missing or null. */
  predicate HasPositiveLength(v: Option<Json>)
  {
    v.Some? && v.value != JNull && PositiveNumber(Length(v.value))
  }

  function Quoted(v: Option<Json>): string
  {
    "\"" + Interp(v) + "\""
  }

  function UserCreateText(d: Json): string
  {
    "Created user " + Quoted(Or(Target(d), Some(JStr("new user")))) + " with role " + Interp(Prop(d, "role")) + "."
  }

  function UserDeleteText(d: Json): string
  {
    "Deleted user " + Quoted(Or(Target(d), Some(JStr("someone"))))
      + " (" + Interp(Or(Prop(d, "deletedRole"), Some(JStr("no role")))) + ")."
  }

  /** USER_UPDATE: an event assignment first, then the updated fields, else a generic sentence. */
  function UserUpdateText(raw: string, d: Json): string
  {
    var fields := Prop(d, "updatedFields");
    if Truthy(Prop(d, "eventName")) then
      "Assigned user " + Quoted(Target(d)) + " to event " + Quoted(Prop(d, "eventName")) + "."
    else if HasPositiveLength(fields) then
      if fields.value.JArr? then
        "Updated " + UserFields(fields.value.items) + " for user " + Quoted(Or(Target(d), Some(JStr("someone")))) + "."
      else raw  // `map` is not a function: the TypeError is caught
    else "Updated details for user " + Quoted(Or(Target(d), Some(JStr("someone")))) + "."
  }

  function ProfileUpdateText(raw: string, d: Json): string
  {
    var fields := Prop(d, "updatedFields");
    if HasPositiveLength(fields) then
      if fields.value.JArr? then "Updated " + UserFields(fields.value.items) + "."
      else raw
    else "Updated profile settings."
  }

  function PasswordResetText(d: Json): string
  {
    var resetType := if Truthy(Prop(d, "isManualReset")) then "manually" else "automatically";
    ResetSentence(Quoted(Or(Target(d), Some(JStr("someone")))), resetType)
  }

  function ResetSentence(who: string, resetType: string): string
  {
    "Reset password for user " + who + " " + resetType + "."
  }

  /** The two reset sentences differ in their last ten characters. */
  lemma ResetSentenceEnd(who: string, resetType: string)
    requires resetType == "manually" || resetType == "automatically"
    ensures var r := ResetSentence(who, resetType);
      Text.StartsWith(r, "Reset password for user ")
      && (resetType == "manually" <==> r[|r| - 10..] == " manually.")
  {
    var r := ResetSentence(who, resetType);
    var head := "Reset password for user " + who + " ";
    assert r == "Reset password for user " + (who + " " + resetType + ".");
    Text.StartsWithConcat("Reset password for user ", who + " " + resetType + ".");
    if resetType == "manually" {
      assert r == head + "manually.";
    } else {
      assert r == head + "automatically.";
      assert r[|r| - 10..] == "automatically."[4..];
    }
  }

  function RenameText(d: Json): string
  {
    "User renamed from " + Quoted(Prop(d, "oldUsername")) + " to " + Quoted(Prop(d, "newUsername")) + "."
  }

  function EntryCreateText(d: Json): string
  {
    "Added entry: " + Interp(Prop(d, "itemName")) + " x" + Interp(Prop(d, "count"))
  }

  function TeamUpdateText(raw: string, d: Json): string
  {
    var fields := Or(Prop(d, "updatedFields"), Some(JArr([])));
    if fields.value.JArr? then
      var joined := TeamFields(fields.value.items);
      "Updated " + (if joined == "" then "settings" else joined) + " for team."
    else raw
  }

  /** The actions the log view describes in words; every other action is shown as JSON. */
  datatype ActionKind =
    | UserCreate | UserDelete | UserUpdate | ProfileUpdate | PasswordReset | PasswordChange
    | Rename | EventCreate | EventDelete | EventUpdate | EntryCreate | TeamUpdate | OtherAction

  function KindOf(action: string): ActionKind
  {
    match action
    case "USER_CREATE" => UserCreate
    case "USER_DELETE" => UserDelete
    case "USER_UPDATE" => UserUpdate
    case "USER_PROFILE_UPDATE" => ProfileUpdate
    case "USER_PASSWORD_RESET" => PasswordReset
    case "USER_PASSWORD_CHANGE" => PasswordChange
    case "USER_RENAME" => Rename
    case "EVENT_CREATE" => EventCreate
    case "EVENT_DELETE" => EventDelete
    case "EVENT_UPDATE" => EventUpdate
    case "ENTRY_CREATE" => EntryCreate
    case "TEAM_UPDATE" => TeamUpdate
    case _ => OtherAction
  }

  /**
   * The sentence shown for a log record. `parsed` is what `JSON.parse` makes of the
   * stored text `raw` (None when it throws); any exception raised while rendering
   * falls back to `raw`.
   */
  function RenderLogDetails(action: string, raw: string, parsed: Option<Json>): (r: string)
    ensures parsed.None? ==> r == raw
    ensures parsed == Some(JNull) ==> r == raw
  {
    if parsed.None? || parsed.value == JNull then raw
    else
      var d := parsed.value;
      match KindOf(action)
      case UserCreate => UserCreateText(d)
      case UserDelete => UserDeleteText(d)
      case UserUpdate => UserUpdateText(raw, d)
      case ProfileUpdate => ProfileUpdateText(raw, d)
      case PasswordReset => PasswordResetText(d)
      case PasswordChange => "User changed their own password."
      case Rename => RenameText(d)
      case EventCreate => "Created new event " + Quoted(Target(d)) + "."
      case EventDelete => "Deleted event " + Quoted(Target(d)) + "."
      case EventUpdate => "Updated settings for event " + Quoted(Target(d)) + "."
      case EntryCreate => EntryCreateText(d)
      case TeamUpdate => TeamUpdateText(raw, d)
      case OtherAction => Stringify(d)
  }

  /** How the four update actions are dispatched. */
  lemma RenderUpdates(raw: string, d: Json)
    requires d != JNull
    ensures RenderLogDetails("USER_UPDATE", raw, Some(d)) == UserUpdateText(raw, d)
    ensures RenderLogDetails("USER_PROFILE_UPDATE", raw, Some(d)) == ProfileUpdateText(raw, d)
    ensures RenderLogDetails("USER_PASSWORD_RESET", raw, Some(d)) == PasswordResetText(d)
    ensures RenderLogDetails("TEAM_UPDATE", raw, Some(d)) == TeamUpdateText(raw, d)
  {
    assert KindOf("USER_UPDATE") == UserUpdate;
    assert KindOf("USER_PROFILE_UPDATE") == ProfileUpdate;
    assert KindOf("USER_PASSWORD_RESET") == PasswordReset;
    assert KindOf("TEAM_UPDATE") == TeamUpdate;
  }

  // ---------------------------------------------------------------------
  // Properties of the rendering
  // ---------------------------------------------------------------------

  /** A user update that names an event is described as an assignment, whatever fields it lists. */
  lemma UserUpdateEventFirst(raw: string, d: Json)
    requires d != JNull && Truthy(Prop(d, "eventName"))
    ensures Text.StartsWith(UserUpdateText(raw, d), "Assigned user ")
  {
    Text.StartsWithConcat("Assigned user ", Quoted(Target(d)) + " to event " + Quoted(Prop(d, "eventName")) + ".");
  }

  /** The labels of a list of field names, joined by ", ". */
  function UserLabelsText(fs: seq<string>): string
  {
    Text.Join(seq(|fs|, i requires 0 <= i < |fs| =>
      if fs[i] == "hasSeenWelcome" then "welcome status"
      else if fs[i] == "avatarIndex" then "profile avatar"
      else fs[i]), ", ")
  }

  /**
   * A profile-update record whose `updatedFields` is a list of names renders as
   * "Updated <labels>." with hasSeenWelcome and avatarIndex renamed and the other
   * names kept; an empty list renders as "Updated profile settings.".
   */
  lemma ProfileUpdateSentence(raw: string, fs: seq<string>)
    ensures var d := JObj([("updatedFields", StrArray(fs))]);
      ProfileUpdateText(raw, d)
        == if fs == [] then "Updated profile settings." else "Updated " + UserLabelsText(fs) + "."
  {
    var d := JObj([("updatedFields", StrArray(fs))]);
    assert Prop(d, "updatedFields") == Some(StrArray(fs));
    var a := StrArray(fs).items;
    var labels := seq(|a|, i requires 0 <= i < |a| => UserFieldLabel(a[i]));
    assert seq(|labels|, i requires 0 <= i < |labels| => if labels[i] == JNull then "" else ToStr(labels[i]))
        == seq(|fs|, i requires 0 <= i < |fs| =>
             if fs[i] == "hasSeenWelcome" then "welcome status"
             else if fs[i] == "avatarIndex" then "profile avatar"
             else fs[i]);
  }

  /** The team labels of a list of field names: iconIndex becomes "team icon". */
  function TeamLabelsText(fs: seq<string>): string
  {
    Text.Join(seq(|fs|, i requires 0 <= i < |fs| => if fs[i] == "iconIndex" then "team icon" else fs[i]), ", ")
  }

  /**
   * A team-update record renders its field labels, or "settings" when they join to
   * nothing, which for non-empty field names means an empty list.
   */
  lemma TeamUpdateSentence(raw: string, teamId: Json, fs: seq<string>)
    ensures var d := JObj([("teamId", teamId), ("updatedFields", StrArray(fs))]);
      TeamUpdateText(raw, d)
        == "Updated " + (if TeamLabelsText(fs) == "" then "settings" else TeamLabelsText(fs)) + " for team."
    ensures (forall i :: 0 <= i < |fs| ==> fs[i] != "") ==> (TeamLabelsText(fs) == "" <==> fs == [])
  {
    var d := JObj([("teamId", teamId), ("updatedFields", StrArray(fs))]);
    var fields := [("teamId", teamId), ("updatedFields", StrArray(fs))];
    assert Lookup(fields[1..], "updatedFields") == Some(StrArray(fs));
    assert Prop(d, "updatedFields") == Some(StrArray(fs));
    var a := StrArray(fs).items;
    var labels := seq(|a|, i requires 0 <= i < |a| => TeamFieldLabel(a[i]));
    assert seq(|labels|, i requires 0 <= i < |labels| => if labels[i] == JNull then "" else ToStr(labels[i]))
        == seq(|fs|, i requires 0 <= i < |fs| => if fs[i] == "iconIndex" then "team icon" else fs[i]);
    if fs != [] && forall i :: 0 <= i < |fs| ==> fs[i] != "" {
      TeamLabelsNonEmpty(fs);
    }
  }

  /** Joined labels of a non-empty list are never empty, so "settings" only stands for an empty list. */
  lemma {:induction false} TeamLabelsNonEmpty(fs: seq<string>)
    requires fs != []
    requires forall i :: 0 <= i < |fs| ==> fs[i] != ""
    ensures TeamLabelsText(fs) != ""
  {
  }

  /** A password reset is described as manual exactly when `isManualReset` is truthy. */
  lemma PasswordResetManual(d: Json)
    ensures var r := PasswordResetText(d);
      Text.StartsWith(r, "Reset password for user ")
      && (Truthy(Prop(d, "isManualReset")) <==> r[|r| - 10..] == " manually.")
  {
    var resetType := if Truthy(Prop(d, "isManualReset")) then "manually" else "automatically";
    ResetSentenceEnd(Quoted(Or(Target(d), Some(JStr("someone")))), resetType);
  }
}
