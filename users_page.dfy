/**
 * The user-management page (app/admin/users/page.tsx): the search filter over
 * the user list, the row selection and its header checkbox, and the parsing of
 * the bulk-create text box.
 */
module UsersPage {
  import opened Wrappers
  import Text
  import Lists

  /** A row of `/api/users/list` as the page reads it; `publicId` as `String(u.publicId)`. */
  datatype UserRow = UserRow(id: string, username: string, publicId: string)

  /** The search test: the lower-cased username or public ID includes the lower-cased search. */
  predicate MatchesSearch(u: UserRow, searchTerm: string)
  {
    var search := Text.Lower(searchTerm);
    Text.Contains(Text.Lower(u.username), search) || Text.Contains(Text.Lower(u.publicId), search)
  }

  /** `filteredUsers`: the list is empty until it has loaded. */
  function FilteredUsers(users: Option<seq<UserRow>>, searchTerm: string): seq<UserRow>
  {
    Lists.Filter(users.GetOr([]), u => MatchesSearch(u, searchTerm))
  }

  /** A user is listed iff the search matches it; the list keeps the loaded order. */
  lemma FilterSpec(users: seq<UserRow>, searchTerm: string)
    ensures var r := FilteredUsers(Some(users), searchTerm);
      && (forall u :: u in r <==> u in users && MatchesSearch(u, searchTerm))
      && Lists.Sublist(r, users)
  {
    Lists.FilterSublist(users, u => MatchesSearch(u, searchTerm));
  }

  /** An empty search keeps every user, in order. */
  lemma EmptySearchKeepsAll(users: seq<UserRow>)
    ensures FilteredUsers(Some(users), "") == users
  {
    forall u | u in users ensures MatchesSearch(u, "") {
      Text.ContainsEmpty(Text.Lower(u.username));
    }
  }

  function Ids(rows: seq<UserRow>): (r: seq<string>)
    ensures |r| == |rows| && forall i :: 0 <= i < |rows| ==> r[i] == rows[i].id
  {
    Lists.Map(rows, (u: UserRow) => u.id)
  }

  /** `handleSelectUser` on the selection list: a selected id is removed everywhere, another one appended. */
  function Toggled(selected: seq<string>, id: string): (r: seq<string>)
  {
    if id in selected then Lists.Filter(selected, uid => uid != id) else selected + [id]
  }

  /** Toggling removes every occurrence of a selected id and appends an unselected one. */
  lemma ToggleSpec(selected: seq<string>, id: string)
    ensures id in selected ==>
      && id !in Toggled(selected, id)
      && (forall x :: x != id ==> (x in Toggled(selected, id) <==> x in selected))
      && Lists.Sublist(Toggled(selected, id), selected)
    ensures id !in selected ==> Toggled(selected, id) == selected + [id]
  {
    Lists.FilterSublist(selected, uid => uid != id);
  }

  /**
   * Toggling the same id twice selects the same ids as before; when the id was
   * not selected, the list is exactly the one before.
   */
  lemma ToggleTwice(selected: seq<string>, id: string)
    ensures forall x :: x in Toggled(Toggled(selected, id), id) <==> x in selected
    ensures id !in selected ==> Toggled(Toggled(selected, id), id) == selected
  {
    var once := Toggled(selected, id);
    if id !in selected {
      assert id in once;
      assert forall i :: 0 <= i < |selected| ==> selected[i] != id;
      assert once[..|selected|] == selected;
      assert Lists.Filter(once, uid => uid != id) == selected by {
        FilterDropsLast(selected, id);
      }
    }
  }

  lemma {:induction false} FilterDropsLast(s: seq<string>, id: string)
    requires id !in s
    ensures Lists.Filter(s + [id], uid => uid != id) == s
  {
    if s != [] {
      assert (s + [id])[1..] == s[1..] + [id];
      FilterDropsLast(s[1..], id);
    }
  }

  /** One trimmed user name per non-blank line of the bulk-create text, in order. */
  function ParseBulkText(text: string): (names: seq<string>)
    ensures forall i :: 0 <= i < |names| ==> |names[i]| > 0
    ensures forall i :: 0 <= i < |names| ==> !Text.IsSpace(names[i][0]) && !Text.IsSpace(names[i][|names[i]| - 1])
    ensures Lists.Sublist(names, Lines(text))
    ensures forall l :: l in Lines(text) ==> (l in names <==> |l| > 0)
    ensures |names| == Lists.Count(Lines(text), NonBlank)
  {
    var lines := Lines(text);
    Lists.FilterSublist(lines, NonBlank);
    Lists.Filter(lines, NonBlank)
  }

  predicate NonBlank(l: string) { |l| > 0 }

  /** The lines of the text, each trimmed. */
  function Lines(text: string): (lines: seq<string>)
    ensures |lines| == |Text.Split(text, '\n')|
    ensures forall i :: 0 <= i < |lines| ==>
      lines[i] == [] || (!Text.IsSpace(lines[i][0]) && !Text.IsSpace(lines[i][|lines[i]| - 1]))
  {
    var raw := Text.Split(text, '\n');
    forall i | 0 <= i < |raw| ensures var t := Text.Trim(raw[i]); t == [] || (!Text.IsSpace(t[0]) && !Text.IsSpace(t[|t| - 1])) {
      Text.TrimSpec(raw[i]);
    }
    Lists.Map(raw, Text.Trim)
  }

  /** Names without surrounding white space or line breaks, one per line, parse back as themselves. */
  lemma ParseBulkTextRoundTrip(names: seq<string>)
    requires forall i :: 0 <= i < |names| ==> names[i] != [] && '\n' !in names[i]
    requires forall i :: 0 <= i < |names| ==> !Text.IsSpace(names[i][0]) && !Text.IsSpace(names[i][|names[i]| - 1])
    ensures ParseBulkText(Text.Join(names, "\n")) == names
  {
    if names == [] {
      assert Text.Split("", '\n') == [""];
      assert Lists.Map([""], Text.Trim) == [""];
    } else {
      Text.SplitJoin(names, '\n');
      TrimAll(names);
    }
  }

  lemma TrimAll(names: seq<string>)
    requires forall i :: 0 <= i < |names| ==> names[i] != []
    requires forall i :: 0 <= i < |names| ==> !Text.IsSpace(names[i][0]) && !Text.IsSpace(names[i][|names[i]| - 1])
    ensures Lists.Map(names, Text.Trim) == names
  {
    forall i | 0 <= i < |names| ensures Text.Trim(names[i]) == names[i] {
      Text.TrimIdentity(names[i]);
    }
  }

  /** The selection state of the page: `selectedUsers`. */
  class UserSelection {
    var selected: seq<string>

    constructor ()
      ensures selected == []
    {
      selected := [];
    }

    /** The header checkbox: as many selected as listed, and at least one listed. */
    predicate HeaderChecked(filtered: seq<UserRow>)
      reads this
    {
      |selected| == |filtered| && |filtered| > 0
    }

    /** `handleSelectAll`: checking selects the listed ids in list order, unchecking clears. */
    method SelectAll(checked: bool, filtered: seq<UserRow>)
      modifies this
      ensures selected == if checked then Ids(filtered) else []
      ensures checked && filtered != [] ==> HeaderChecked(filtered)
      ensures !checked ==> !HeaderChecked(filtered)
    {
      if checked {
        selected := Ids(filtered);
      } else {
        selected := [];
      }
    }

    /** `handleSelectUser`. */
    method SelectUser(id: string)
      modifies this
      ensures selected == Toggled(old(selected), id)
    {
      if id in selected {
        selected := Lists.Filter(selected, uid => uid != id);
      } else {
        selected := selected + [id];
      }
    }

    /** After a bulk action succeeds the selection is emptied. */
    method BulkActionSucceeded()
      modifies this
      ensures selected == []
    {
      selected := [];
    }
  }
}
