/**
 * The view rules of one lead card (src/components/LeadCard.jsx): the roster search of the assign
 * dropdown, the payload handed to the dashboard on assignment, the avatar fallbacks, the actions
 * offered in each lock/assignment state, the masked name and the score badge.
 */
module LeadCard {
  import opened Wrappers
  import Seqs
  import Text
  import Profiles
  import opened Dashboard

  /** JavaScript truthiness of an optional text: present and not the empty string. */
  predicate Present(o: Option<string>) {
    o.Some? && o.value != []
  }

  // ---------------------------------------------------------------- roster search

  /** A member whose lower-cased name contains the lower-cased query. */
  function NameMatches(query: string): OrgUser -> bool {
    (u: OrgUser) => Text.Contains(Text.Lower(u.name), Text.Lower(query))
  }

  /** The `filteredUsers` effect: the whole roster for an empty query, else the members whose name matches. */
  function FilteredUsers(roster: seq<OrgUser>, query: string): (r: seq<OrgUser>)
    ensures query == [] ==> r == roster
    ensures Seqs.IsSubsequence(r, roster)
    ensures forall u :: u in r ==> u in roster && NameMatches(query)(u)
    ensures forall u :: u in roster && NameMatches(query)(u) ==> u in r
  {
    if query == [] then
      EmptyQueryMatchesAll(roster);
      Seqs.FilterKeepsAll(roster, NameMatches(query));
      Seqs.FilterIsSubsequence(roster, NameMatches(query));
      roster
    else
      Seqs.FilterIsSubsequence(roster, NameMatches(query));
      Seqs.Filter(roster, NameMatches(query))
  }

  /** The empty-query shortcut changes nothing: every name contains the empty string. */
  lemma FilteredUsersIsFilter(roster: seq<OrgUser>, query: string)
    ensures FilteredUsers(roster, query) == Seqs.Filter(roster, NameMatches(query))
  {
    if query == [] {
      EmptyQueryMatchesAll(roster);
      Seqs.FilterKeepsAll(roster, NameMatches(query));
    }
  }

  /** Every name contains the empty string. */
  lemma EmptyQueryMatchesAll(roster: seq<OrgUser>)
    ensures forall u :: u in roster ==> NameMatches([])(u)
  {
    forall u | u in roster ensures NameMatches([])(u) {
      Text.ContainsEmpty(Text.Lower(u.name));
    }
  }

  // ---------------------------------------------------------------- assignment payload and avatars

  /**
   * `handleAssign`'s third argument: the chosen roster entry with `avatarUrl` set to its avatar, or to
   * the generated portrait when it has none. The chosen id always comes from the roster.
   */
  function AssignPayload(roster: seq<OrgUser>, userId: string): (r: OrgUser)
    requires exists u :: u in roster && u.id == userId
    ensures r.(avatarUrl := FindMember(roster, userId).value.avatarUrl) == FindMember(roster, userId).value
    ensures Present(r.avatarUrl)
    ensures Present(FindMember(roster, userId).value.avatar) ==> r.avatarUrl == FindMember(roster, userId).value.avatar
    ensures !Present(FindMember(roster, userId).value.avatar)
      ==> r.avatarUrl == Some(Profiles.RandomProfileImage(Profiles.TextId(userId)))
  {
    var m := FindMember(roster, userId).value;
    var image := Profiles.RandomProfileImage(Profiles.TextId(userId));
    m.(avatarUrl := Some(if Present(m.avatar) then m.avatar.value else image))
  }

  /** `assignedUserImage`: nothing when unassigned, else the avatar, else `avatarUrl`, else the portrait. */
  function AssignedUserImage(assignedTo: Option<OrgUser>): (r: Option<string>)
    ensures r.None? <==> assignedTo.None?
    ensures r.Some? ==> r.value != []
    ensures assignedTo.Some? && Present(assignedTo.value.avatar) ==> r == assignedTo.value.avatar
    ensures assignedTo.Some? && !Present(assignedTo.value.avatar) && Present(assignedTo.value.avatarUrl)
      ==> r == assignedTo.value.avatarUrl
    ensures assignedTo.Some? && !Present(assignedTo.value.avatar) && !Present(assignedTo.value.avatarUrl)
      ==> r == Some(Profiles.RandomProfileImage(Profiles.TextId(assignedTo.value.id)))
  {
    match assignedTo
    case None => None
    case Some(u) =>
      if Present(u.avatar) then u.avatar
      else if Present(u.avatarUrl) then u.avatarUrl
      else Some(Profiles.RandomProfileImage(Profiles.TextId(u.id)))
  }

  /**
   * The dashboard stores the roster entry, not the card's payload. For an entry without `avatarUrl`
   * (all of the dashboard's roster) the card shows the same image either way.
   */
  lemma PayloadImageMatchesRosterEntry(roster: seq<OrgUser>, userId: string)
    requires exists u :: u in roster && u.id == userId
    requires FindMember(roster, userId).value.avatarUrl.None?
    ensures AssignedUserImage(Some(AssignPayload(roster, userId)))
      == AssignedUserImage(Some(FindMember(roster, userId).value))
  {
  }

  /** The card's own avatar: the lead's avatar, else the portrait generated from the lead id. */
  function LeadAvatar(lead: Lead): (r: string)
    ensures r != []
    ensures Present(lead.avatar) ==> r == lead.avatar.value
    ensures !Present(lead.avatar) ==> r == Profiles.RandomProfileImage(Profiles.TextId(lead.id))
  {
    if Present(lead.avatar) then lead.avatar.value else Profiles.RandomProfileImage(Profiles.TextId(lead.id))
  }

  // ---------------------------------------------------------------- actions, name and badge

  /** The buttons on the right of a card (the like/dislike buttons are always there and are not listed). */
  datatype Action = UnlockAction | ViewDetailsAction | AssignAction

  /** A locked lead offers Unlock; an unlocked one View Details, plus Assign while it is unassigned. */
  function Actions(lead: Lead): (r: set<Action>)
    ensures UnlockAction in r <==> lead.isLocked
    ensures ViewDetailsAction in r <==> !lead.isLocked
    ensures AssignAction in r <==> !lead.isLocked && lead.assignedTo.None?
    ensures r != {}
  {
    if lead.isLocked then {UnlockAction}
    else if lead.assignedTo.Some? then {ViewDetailsAction}
    else {ViewDetailsAction, AssignAction}
  }

  /** The name is shown greyed out while a ReceptoNet lead is locked, so a masked card always offers Unlock. */
  function NameMasked(lead: Lead): (masked: bool)
    ensures masked ==> UnlockAction in Actions(lead)
    ensures !lead.isRecepNet ==> !masked
    ensures masked <==> lead.isRecepNet && UnlockAction in Actions(lead)
  {
    lead.isRecepNet && lead.isLocked
  }

  /**
   * After the dashboard charges for an unlock, the card of that lead no longer offers Unlock and
   * no longer masks the name.
   */
  lemma UnlockRemovesUnlockAction(leads: seq<Lead>, credits: nat, id: string)
    requires UnlockDecision(leads, credits, id).Charged?
    ensures var l := FindLead(UnlockLeads(leads, id), id);
      l.Some? && UnlockAction !in Actions(l.value) && !NameMasked(l.value)
  {
    UnlockedLeadIsUnlocked(leads, credits, id);
  }

  /** Once any lead with that id is assigned, none of them offers Assign any more. */
  lemma AssignRemovesAssignAction(leads: seq<Lead>, id: string, member: OrgUser)
    ensures forall l :: l in AssignLeads(leads, id, member) && l.id == id ==> AssignAction !in Actions(l)
  {
    var r := AssignLeads(leads, id, member);
    forall l | l in r && l.id == id ensures AssignAction !in Actions(l) {
      var i :| 0 <= i < |r| && r[i] == l;
      assert leads[i].id == id;
    }
  }

  datatype Badge = Green | Blue

  /** The score badge: green when `parseInt(score) >= 90`; `NaN` compares false, so it is blue. */
  function ScoreBadge(score: string): (b: Badge)
    ensures b == Green <==> Text.ParseInt(score).Some? && Text.ParseInt(score).value >= 90
  {
    match Text.ParseInt(score)
    case Some(v) => if v >= 90 then Green else Blue
    case None => Blue
  }

  /** For a score written as a number, the badge is green exactly from 90 up. */
  lemma ScoreBadgeOfNumber(n: int)
    ensures ScoreBadge(Text.IntToString(n)) == Green <==> n >= 90
  {
    Text.ParseIntToString(n);
  }

  // ---------------------------------------------------------------- the dropdown state

  /** The card's assign dropdown: whether it is open and the search text; the list shown is derived. */
  class AssignDropdown {
    var open: bool
    var query: string
    const roster: seq<OrgUser>

    constructor (roster: seq<OrgUser>)
      ensures this.roster == roster && !open && query == []
    {
      this.roster := roster;
      open := false;
      query := [];
    }

    /** The members listed: `filteredUsers` as the effect leaves it for the current query. */
    function Shown(): (r: seq<OrgUser>)
      reads this
    {
      FilteredUsers(roster, query)
    }

    /** The Assign button: flips the dropdown and clears the search. */
    method Toggle()
      modifies this
      ensures open == !old(open) && query == []
    {
      open := !open;
      query := [];
    }

    /** Typing in the search box, or its clear button with the empty text. */
    method Search(text: string)
      modifies this
      ensures open == old(open) && query == text
    {
      query := text;
    }

    /** Picking a listed member: the payload for the dashboard; the dropdown closes and the search clears. */
    method Choose(userId: string) returns (payload: OrgUser)
      requires exists u :: u in Shown() && u.id == userId
      modifies this
      ensures payload == AssignPayload(roster, userId)
      ensures !open && query == []
    {
      payload := AssignPayload(roster, userId);
      open := false;
      query := [];
    }
  }
}
