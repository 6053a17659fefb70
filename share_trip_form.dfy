/** The share dialog (frontend/src/components/ShareTripForm.tsx): searching the
    user directory, selecting invitees, and sending the invitations. Ids that
    already hold an invitation for the trip are pre-selected and locked. */
module ShareTripForm {
  import opened Common
  import opened Domain
  import NotificationService

  /** `field?.toLowerCase().includes(query.toLowerCase())`: a null field never
      matches. */
  predicate FieldMatches(field: Option<string>, query: string) {
    field.Some? && IncludesScan(Lower(field.value), Lower(query))
  }

  /** The filter's test for one directory entry. */
  predicate Listed(u: UserProfile, viewer: Option<string>, query: string) {
    (viewer.None? || u.id != viewer.value)
    && (FieldMatches(u.firstName, query) || FieldMatches(u.lastName, query) || FieldMatches(u.email, query))
  }

  /** `filteredUsers`: absent while the directory is absent. */
  function FilteredUsers(users: Option<seq<UserProfile>>, viewer: Option<string>, query: string): (r: Option<seq<UserProfile>>)
    ensures r.None? <==> users.None?
    ensures r.Some? ==> forall u :: u in r.value <==> u in users.value && Listed(u, viewer, query)
    ensures r.Some? && viewer.Some? ==> forall k :: 0 <= k < |r.value| ==> r.value[k].id != viewer.value
  {
    if users.None? then None else Some(Filter(users.value, (u: UserProfile) => Listed(u, viewer, query)))
  }

  /** The list keeps directory order: filtering two parts of the directory
      lists the first part's matches before the second's. */
  lemma FilteredKeepsOrder(a: seq<UserProfile>, b: seq<UserProfile>, viewer: Option<string>, query: string)
    ensures FilteredUsers(Some(a + b), viewer, query).value
            == FilteredUsers(Some(a), viewer, query).value + FilteredUsers(Some(b), viewer, query).value
  {
    FilterConcat(a, b, (u: UserProfile) => Listed(u, viewer, query));
  }

  /** An empty query lists every other user with at least one non-null name or
      e-mail field. */
  lemma EmptyQueryListsEveryone(u: UserProfile, viewer: Option<string>)
    requires viewer.None? || u.id != viewer.value
    requires u.firstName.Some? || u.lastName.Some? || u.email.Some?
    ensures Listed(u, viewer, "")
  {
    if u.firstName.Some? {
      EmptyQueryIncluded(Lower(u.firstName.value));
    } else if u.lastName.Some? {
      EmptyQueryIncluded(Lower(u.lastName.value));
    } else {
      EmptyQueryIncluded(Lower(u.email.value));
    }
  }

  /** A user whose three fields are all null is never listed. */
  lemma NullFieldsNeverListed(u: UserProfile, viewer: Option<string>, query: string)
    requires u.firstName.None? && u.lastName.None? && u.email.None?
    ensures !Listed(u, viewer, query)
  {
  }

  /** `toggleUserSelection` on the selection list. */
  function Toggled(selected: seq<string>, preSelected: seq<string>, id: string): (r: seq<string>)
    ensures id in preSelected ==> r == selected
    ensures id !in preSelected ==> (id in r <==> id !in selected)
    ensures forall x :: x != id ==> (x in r <==> x in selected)
    ensures id !in preSelected && id !in selected ==> r == selected + [id]
    ensures id !in preSelected && id in selected ==> r == RemoveAll(selected, id)
  {
    if id in preSelected then selected
    else if id in selected then RemoveAll(selected, id)
    else selected + [id]
  }

  /** Toggling an id twice restores whether each id is selected; starting from
      an unselected id it restores the list exactly. */
  lemma ToggleTwice(selected: seq<string>, preSelected: seq<string>, id: string)
    ensures forall x :: x in Toggled(Toggled(selected, preSelected, id), preSelected, id) <==> x in selected
    ensures id !in selected ==> Toggled(Toggled(selected, preSelected, id), preSelected, id) == selected
  {
    if id !in selected && id !in preSelected {
      RemoveAppended(selected, id);
      RemoveAbsent(selected, id);
    }
  }

  /** The ids the button would newly invite, besides the locked ones. */
  function NewInvitees(selected: seq<string>, preSelected: seq<string>): (r: seq<string>)
    ensures forall x :: x in r <==> x in selected && x !in preSelected
  {
    Filter(selected, (x: string) => x !in preSelected)
  }

  /** The share button's `disabled`. */
  predicate ShareDisabled(selected: seq<string>, preSelected: seq<string>) {
    |NewInvitees(selected, preSelected)| == 0
  }

  /** The button is disabled iff every selected id is pre-selected. */
  lemma DisabledIffNothingNew(selected: seq<string>, preSelected: seq<string>)
    ensures ShareDisabled(selected, preSelected) <==> forall k :: 0 <= k < |selected| ==> selected[k] in preSelected
  {
    var r := NewInvitees(selected, preSelected);
    if r != [] {
      assert r[0] in r;
      var k :| 0 <= k < |selected| && selected[k] == r[0];
    }
    if exists k :: 0 <= k < |selected| && selected[k] !in preSelected {
      var k :| 0 <= k < |selected| && selected[k] !in preSelected;
      assert selected[k] in r;
    }
  }

  /** `users?.find(u => u.id === id)` exists. */
  predicate InDirectory(users: Option<seq<UserProfile>>, id: string) {
    users.Some? && exists k :: 0 <= k < |users.value| && users.value[k].id == id
  }

  /** The ids sent: each selected id whose directory entry exists, in selection
      order; pre-selected ids are not excluded. */
  function SentIds(selected: seq<string>, users: Option<seq<UserProfile>>): (r: seq<string>)
    ensures forall x :: x in r <==> x in selected && InDirectory(users, x)
    ensures users.None? ==> r == []
  {
    var found := Filter(selected, (id: string) => InDirectory(users, id));
    assert users.None? ==> found == [] by {
      if users.None? {
        FilterKeepsNone(selected, (id: string) => InDirectory(users, id));
      }
    }
    found
  }

  /** The sent ids follow the selection's order: sending from two runs of the
      selection sends each run's ids in turn. */
  lemma SentIdsConcat(a: seq<string>, b: seq<string>, users: Option<seq<UserProfile>>)
    ensures SentIds(a + b, users) == SentIds(a, users) + SentIds(b, users)
  {
    FilterConcat(a, b, (id: string) => InDirectory(users, id));
  }

  /** When every selected id has a directory entry, exactly the selection is
      sent, in its order. */
  lemma AllFoundAllSent(selected: seq<string>, users: Option<seq<UserProfile>>)
    requires forall k :: 0 <= k < |selected| ==> InDirectory(users, selected[k])
    ensures SentIds(selected, users) == selected
  {
    FilterKeepsAll(selected, (id: string) => InDirectory(users, id));
  }

  /** Every selected id from the directory is sent, the locked ones included. */
  lemma PreSelectedAreResent(selected: seq<string>, preSelected: seq<string>, users: seq<UserProfile>, k: int)
    requires 0 <= k < |users| && users[k].id in selected
    ensures users[k].id in SentIds(selected, Some(users))
  {
  }

  const InvitePrefix := "You have been invited to join a trip-"

  /** The invitation text: the fixed prefix, then the trip name. */
  function ShareMessage(tripname: string): (m: string)
    ensures InvitePrefix <= m
    ensures m[|InvitePrefix|..] == tripname
  {
    InvitePrefix + tripname
  }

  /** The dialog's state cells. */
  class ShareDialog {
    var selectedUsers: seq<string>
    var preSelectedUsers: seq<string>
    var open: bool

    constructor ()
      ensures selectedUsers == [] && preSelectedUsers == [] && !open
    {
      selectedUsers := [];
      preSelectedUsers := [];
      open := false;
    }

    /** `fetchPreSelectedUsers`, given the `user_id` of each invitation already
        stored for the trip; a thrown read changes nothing. */
    method LoadPreSelected(invited: Fetch<seq<string>>)
      modifies this
      ensures invited.Fetched? ==> preSelectedUsers == invited.value && selectedUsers == invited.value
      ensures invited.Threw? ==> preSelectedUsers == old(preSelectedUsers) && selectedUsers == old(selectedUsers)
      ensures open == old(open)
    {
      if invited.Fetched? {
        preSelectedUsers := invited.value;
        selectedUsers := invited.value;
      }
    }

    /** `toggleUserSelection` */
    method ToggleUserSelection(id: string)
      modifies this
      ensures selectedUsers == Toggled(old(selectedUsers), preSelectedUsers, id)
      ensures preSelectedUsers == old(preSelectedUsers) && open == old(open)
    {
      if id in preSelectedUsers {
        return;
      }
      if id in selectedUsers {
        selectedUsers := RemoveAll(selectedUsers, id);
      } else {
        selectedUsers := selectedUsers + [id];
      }
    }

    /** The share button: invite the sent ids with the trip's message; the
        dialog closes whatever the result. */
    method ShareTrip(users: Option<seq<UserProfile>>, trip: Trip, answer: InsertAnswer)
      returns (call: NotificationService.ShareCall)
      modifies this
      ensures call == NotificationService.AddNotificationsForTripShare(
                SentIds(selectedUsers, users), Some(trip.id), ShareMessage(trip.tripname), answer)
      ensures !open
      ensures selectedUsers == old(selectedUsers) && preSelectedUsers == old(preSelectedUsers)
    {
      var ids := SentIds(selectedUsers, users);
      call := NotificationService.AddNotificationsForTripShare(ids, Some(trip.id), ShareMessage(trip.tripname), answer);
      open := false;
    }
  }
}
