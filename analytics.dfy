/**
 * The analytics page (src/pages/Analytics.jsx): the lead statistics recomputed from the lead list,
 * and the team table with its action menu, role editing, removal and pagination.
 */
module Analytics {
  import opened Wrappers
  import Seqs
  import opened Dashboard

  // ---------------------------------------------------------------- lead statistics

  /** The ReceptoNet card: leads found on the network, split by lock state. */
  datatype ReceptoNetStats = ReceptoNetStats(total: nat, unlocked: nat, yetToUnlock: nat, liked: nat, disliked: nat, assignedCount: nat)

  /** The organisation-network card: the organisation's own leads, split by contact state. */
  datatype OrgNetworkStats = OrgNetworkStats(total: nat, contacted: nat, yetToContact: nat, liked: nat, disliked: nat, assignedCount: nat)

  datatype Stats = Stats(receptoNet: ReceptoNetStats, orgNetwork: OrgNetworkStats)

  /** The figures shown before any lead list has been read. */
  const InitialStats := Stats(
    ReceptoNetStats(404, 179, 225, 234, 45, 156),
    OrgNetworkStats(594, 179, 415, 245, 63, 187))

  /** The figures of each card fit together: the two halves of a split add up to the total, and every other count is at most the total. */
  predicate Consistent(s: Stats) {
    var rn := s.receptoNet;
    var org := s.orgNetwork;
    rn.unlocked + rn.yetToUnlock == rn.total
    && rn.liked <= rn.total && rn.disliked <= rn.total && rn.assignedCount <= rn.total
    && org.contacted + org.yetToContact == org.total
    && org.liked <= org.total && org.disliked <= org.total && org.assignedCount <= org.total
  }

  const IsReceptoNet: Lead -> bool := (l: Lead) => l.isRecepNet
  const IsOrgNetwork: Lead -> bool := (l: Lead) => !l.isRecepNet
  const IsUnlocked: Lead -> bool := (l: Lead) => !l.isLocked
  const IsLocked: Lead -> bool := (l: Lead) => l.isLocked
  const IsContacted: Lead -> bool := (l: Lead) => l.contacted
  const IsNotContacted: Lead -> bool := (l: Lead) => !l.contacted
  const IsLiked: Lead -> bool := (l: Lead) => |l.likedBy| > 0
  const IsDisliked: Lead -> bool := (l: Lead) => |l.dislikedBy| > 0
  const IsAssigned: Lead -> bool := (l: Lead) => l.assignedTo.Some?

  /**
   * `updateStatsFromLeads`' counts: the leads split into ReceptoNet and organisation leads, each
   * group counted by lock or contact state, likes, dislikes and assignment.
   */
  function Aggregate(leads: seq<Lead>): (s: Stats)
    ensures s.receptoNet.total + s.orgNetwork.total == |leads|
    ensures Consistent(s)
    ensures s.receptoNet.total == |Seqs.Filter(leads, IsReceptoNet)|
    ensures s.orgNetwork.total == |Seqs.Filter(leads, IsOrgNetwork)|
    ensures s.receptoNet.unlocked == |Seqs.Filter(leads, Seqs.Both(IsReceptoNet, IsUnlocked))|
    ensures s.receptoNet.yetToUnlock == |Seqs.Filter(leads, Seqs.Both(IsReceptoNet, IsLocked))|
    ensures s.receptoNet.liked == |Seqs.Filter(leads, Seqs.Both(IsReceptoNet, IsLiked))|
    ensures s.receptoNet.disliked == |Seqs.Filter(leads, Seqs.Both(IsReceptoNet, IsDisliked))|
    ensures s.receptoNet.assignedCount == |Seqs.Filter(leads, Seqs.Both(IsReceptoNet, IsAssigned))|
    ensures s.orgNetwork.contacted == |Seqs.Filter(leads, Seqs.Both(IsOrgNetwork, IsContacted))|
    ensures s.orgNetwork.yetToContact == |Seqs.Filter(leads, Seqs.Both(IsOrgNetwork, IsNotContacted))|
    ensures s.orgNetwork.liked == |Seqs.Filter(leads, Seqs.Both(IsOrgNetwork, IsLiked))|
    ensures s.orgNetwork.disliked == |Seqs.Filter(leads, Seqs.Both(IsOrgNetwork, IsDisliked))|
    ensures s.orgNetwork.assignedCount == |Seqs.Filter(leads, Seqs.Both(IsOrgNetwork, IsAssigned))|
  {
    var rn := Seqs.Filter(leads, IsReceptoNet);
    var org := Seqs.Filter(leads, IsOrgNetwork);
    Seqs.FilterFilter(leads, IsReceptoNet, IsUnlocked);
    Seqs.FilterFilter(leads, IsReceptoNet, IsLocked);
    Seqs.FilterFilter(leads, IsReceptoNet, IsLiked);
    Seqs.FilterFilter(leads, IsReceptoNet, IsDisliked);
    Seqs.FilterFilter(leads, IsReceptoNet, IsAssigned);
    Seqs.FilterFilter(leads, IsOrgNetwork, IsContacted);
    Seqs.FilterFilter(leads, IsOrgNetwork, IsNotContacted);
    Seqs.FilterFilter(leads, IsOrgNetwork, IsLiked);
    Seqs.FilterFilter(leads, IsOrgNetwork, IsDisliked);
    Seqs.FilterFilter(leads, IsOrgNetwork, IsAssigned);
    Seqs.FilterPartition(leads, IsReceptoNet, IsOrgNetwork);
    Seqs.FilterPartition(rn, IsUnlocked, IsLocked);
    Seqs.FilterPartition(org, IsContacted, IsNotContacted);
    Stats(
      ReceptoNetStats(|rn|, |Seqs.Filter(rn, IsUnlocked)|, |Seqs.Filter(rn, IsLocked)|,
        |Seqs.Filter(rn, IsLiked)|, |Seqs.Filter(rn, IsDisliked)|, |Seqs.Filter(rn, IsAssigned)|),
      OrgNetworkStats(|org|, |Seqs.Filter(org, IsContacted)|, |Seqs.Filter(org, IsNotContacted)|,
        |Seqs.Filter(org, IsLiked)|, |Seqs.Filter(org, IsDisliked)|, |Seqs.Filter(org, IsAssigned)|))
  }

  /** The statistics after a refresh: recomputed from a non-empty lead list, left alone otherwise. */
  function RefreshedStats(current: Stats, leads: seq<Lead>): (s: Stats)
    ensures leads == [] ==> s == current
    ensures leads != [] ==> s == Aggregate(leads)
    ensures leads != [] ==> s.receptoNet.total + s.orgNetwork.total == |leads|
    ensures Consistent(current) ==> Consistent(s)
  {
    if |leads| > 0 then Aggregate(leads) else current
  }

  /** Two lead lists that agree position by position on which leads are ReceptoNet leads have the same group totals. */
  lemma SameGroupsSameTotals(a: seq<Lead>, b: seq<Lead>)
    requires |a| == |b|
    requires forall i :: 0 <= i < |a| ==> a[i].isRecepNet == b[i].isRecepNet
    ensures Aggregate(a).receptoNet.total == Aggregate(b).receptoNet.total
    ensures Aggregate(a).orgNetwork.total == Aggregate(b).orgNetwork.total
  {
    Seqs.FilterLengthPointwise(a, b, IsReceptoNet);
  }

  /** None of the dashboard's four handlers moves a lead between the two cards. */
  lemma HandlersKeepTotals(leads: seq<Lead>, id: string, user: string, member: OrgUser)
    ensures Aggregate(UnlockLeads(leads, id)).receptoNet.total == Aggregate(leads).receptoNet.total
    ensures Aggregate(LikeLeads(leads, id, user)).receptoNet.total == Aggregate(leads).receptoNet.total
    ensures Aggregate(DislikeLeads(leads, id, user)).receptoNet.total == Aggregate(leads).receptoNet.total
    ensures Aggregate(AssignLeads(leads, id, member)).receptoNet.total == Aggregate(leads).receptoNet.total
  {
    var unlocked := UnlockLeads(leads, id);
    assert forall i :: 0 <= i < |leads| ==> unlocked[i].isRecepNet == leads[i].isRecepNet;
    SameGroupsSameTotals(unlocked, leads);
    var liked := LikeLeads(leads, id, user);
    assert forall i :: 0 <= i < |leads| ==> liked[i].isRecepNet == leads[i].isRecepNet;
    SameGroupsSameTotals(liked, leads);
    var disliked := DislikeLeads(leads, id, user);
    assert forall i :: 0 <= i < |leads| ==> disliked[i].isRecepNet == leads[i].isRecepNet;
    SameGroupsSameTotals(disliked, leads);
    var handed := AssignLeads(leads, id, member);
    assert forall i :: 0 <= i < |leads| ==> handed[i].isRecepNet == leads[i].isRecepNet;
    SameGroupsSameTotals(handed, leads);
  }

  // ---------------------------------------------------------------- the team table

  /** A row of the team table (the descriptive columns that nothing reads are left out). */
  datatype TeamMember = TeamMember(id: string, name: string, role: string, status: string, assignedCount: int)

  /** The team the page starts with. */
  const InitialTeam: seq<TeamMember> := [
    TeamMember("user1", "Anand Kumar", "Admin", "Active", 40),
    TeamMember("user2", "Olivia Rhye", "Member", "Active", 25),
    TeamMember("user3", "Phoenix Baker", "Member", "Inactive", 15),
    TeamMember("user4", "Lana Steiner", "Admin", "Active", 32),
    TeamMember("user5", "Demi Wilkinson", "Member", "Removed", 5)
  ]

  /** `handleRemoveFromTeam`'s new list: the members with that id get status and role `Removed`. */
  function RemoveFromTeam(members: seq<TeamMember>, id: string): (r: seq<TeamMember>)
    ensures |r| == |members|
    ensures forall i :: 0 <= i < |members| && members[i].id == id ==> r[i].status == "Removed" && r[i].role == "Removed"
    ensures forall i :: 0 <= i < |members| ==> r[i].(status := members[i].status, role := members[i].role) == members[i]
    ensures forall i :: 0 <= i < |members| && members[i].id != id ==> r[i] == members[i]
  {
    seq(|members|, i requires 0 <= i < |members| =>
      if members[i].id == id then members[i].(status := "Removed", role := "Removed") else members[i])
  }

  /** Removing a member a second time changes nothing. */
  lemma RemoveTwice(members: seq<TeamMember>, id: string)
    ensures RemoveFromTeam(RemoveFromTeam(members, id), id) == RemoveFromTeam(members, id)
  {
    var once := RemoveFromTeam(members, id);
    var twice := RemoveFromTeam(once, id);
    forall i | 0 <= i < |members| ensures twice[i] == once[i] {
      assert once[i].id == members[i].id;
    }
  }

  /** `handleRoleChange`: the selected member's rows get the new role; with no selection nothing changes. */
  function RoleChanged(members: seq<TeamMember>, selected: Option<TeamMember>, role: string): (r: seq<TeamMember>)
    ensures selected.None? ==> r == members
    ensures |r| == |members|
    ensures forall i :: 0 <= i < |members| && selected.Some? && members[i].id == selected.value.id ==> r[i].role == role
    ensures forall i :: 0 <= i < |members| ==> r[i].(role := members[i].role) == members[i]
    ensures forall i :: 0 <= i < |members| && (selected.None? || members[i].id != selected.value.id) ==> r[i] == members[i]
  {
    match selected
    case None => members
    case Some(u) =>
      seq(|members|, i requires 0 <= i < |members| =>
        if members[i].id == u.id then members[i].(role := role) else members[i])
  }

  /** The rows per page. */
  const ItemsPerPage := 5

  /** `totalPages`: the number of pages of five rows, `ceil(n / 5)`. */
  function TotalPages(n: nat): (pages: nat)
    ensures 5 * pages >= n
    ensures pages > 0 ==> 5 * (pages - 1) < n
  {
    (n + ItemsPerPage - 1) / ItemsPerPage
  }

  /** `getCurrentPageItems`: the rows of page `page`, counted from 1. */
  function PageItems(members: seq<TeamMember>, page: int): (r: seq<TeamMember>)
    ensures page >= 1 ==> |r| <= ItemsPerPage
    ensures 1 <= page && (page - 1) * ItemsPerPage <= |members| ==>
      r == members[(page - 1) * ItemsPerPage .. if page * ItemsPerPage <= |members| then page * ItemsPerPage else |members|]
  {
    var start := (page - 1) * ItemsPerPage;
    Seqs.Slice(members, start, start + ItemsPerPage)
  }

  /** Every row is on exactly one page: row `i` is row `i % 5` of page `i / 5 + 1`, and that page exists. */
  lemma EveryRowOnItsPage(members: seq<TeamMember>, i: nat)
    requires i < |members|
    ensures 1 <= i / 5 + 1 <= TotalPages(|members|)
    ensures i % 5 < |PageItems(members, i / 5 + 1)|
    ensures PageItems(members, i / 5 + 1)[i % 5] == members[i]
  {
    var page := i / 5 + 1;
    assert (page - 1) * 5 == i - i % 5;
    assert page * 5 == i - i % 5 + 5;
  }

  /** Every page from 1 to the last holds at least one row. */
  lemma PagesInRangeAreFull(members: seq<TeamMember>, page: int)
    requires 1 <= page <= TotalPages(|members|)
    ensures PageItems(members, page) != []
  {
    assert (page - 1) * 5 < |members|;
  }

  /** The Previous button: one page back, but not before page 1. */
  function PrevPage(page: int): (p: int)
    ensures p >= 1
    ensures page > 1 ==> p == page - 1
    ensures page <= 1 ==> p == 1
  {
    if page - 1 > 1 then page - 1 else 1
  }

  /** The Next button: one page on, but not past the last page. */
  function NextPage(page: int, total: nat): (p: int)
    ensures p <= total
    ensures page < total ==> p == page + 1
    ensures page >= total ==> p == total
  {
    if page + 1 < total then page + 1 else total
  }

  /** From any page in range, Previous and Next stay in range, and Next then Previous comes back. */
  lemma PagingStaysInRange(page: int, total: nat)
    requires 1 <= page <= total
    ensures 1 <= PrevPage(page) <= total && 1 <= NextPage(page, total) <= total
    ensures page < total ==> PrevPage(NextPage(page, total)) == page
  {
  }

  /** The colour of the assigned-count badge. */
  datatype BadgeColor = Orange | Blue | Green

  /** `getAssignedBadgeColor`: orange from 30, blue from 15, green below. */
  function AssignedBadgeColor(count: int): (c: BadgeColor)
    ensures c == Orange <==> count >= 30
    ensures c == Blue <==> 15 <= count < 30
    ensures c == Green <==> count < 15
  {
    if count >= 30 then Orange else if count >= 15 then Blue else Green
  }

  function Rank(c: BadgeColor): nat {
    match c
    case Green => 0
    case Blue => 1
    case Orange => 2
  }

  /** More assignments never give a lower badge. */
  lemma BadgeMonotone(a: int, b: int)
    requires a <= b
    ensures Rank(AssignedBadgeColor(a)) <= Rank(AssignedBadgeColor(b))
  {
  }

  /** `toggleActionMenu`: a second click on the open member's menu closes it, any other click opens that member's. */
  function ToggleMenu(visible: Option<string>, id: string): (r: Option<string>)
    ensures r == Some(id) <==> visible != Some(id)
    ensures r.Some? ==> r.value == id
  {
    if visible == Some(id) then None else Some(id)
  }

  /** Toggling the same member's menu twice restores a closed menu, and reopens it when it was open. */
  lemma ToggleMenuTwice(visible: Option<string>, id: string)
    ensures ToggleMenu(ToggleMenu(visible, id), id) == if visible == Some(id) then visible else None
  {
  }

  // ---------------------------------------------------------------- the page state

  /** The page's state. */
  class AnalyticsView {
    var teamMembers: seq<TeamMember>
    var stats: Stats
    var currentPage: int
    var actionMenuVisible: Option<string>
    var selectedUser: Option<TeamMember>
    var roleModalVisible: bool

    /** The figures fit together, and the current page is one of the table's pages. */
    ghost predicate Valid()
      reads this
    {
      Consistent(stats) && 1 <= currentPage <= TotalPages(|teamMembers|)
    }

    constructor ()
      ensures teamMembers == InitialTeam && stats == InitialStats && currentPage == 1
      ensures actionMenuVisible == None && selectedUser == None && !roleModalVisible
      ensures Valid()
    {
      teamMembers := InitialTeam;
      stats := InitialStats;
      currentPage := 1;
      actionMenuVisible := None;
      selectedUser := None;
      roleModalVisible := false;
    }

    /** The rows on screen. */
    function Rows(): seq<TeamMember>
      reads this
    {
      PageItems(teamMembers, currentPage)
    }

    /** `updateStatsFromLeads` run on the stored lead list (an absent list reads as empty). */
    method Refresh(leads: seq<Lead>)
      modifies this`stats
      ensures stats == RefreshedStats(old(stats), leads)
      ensures old(Valid()) ==> Valid()
    {
      if |leads| > 0 {
        stats := Aggregate(leads);
      }
    }

    method ToggleActionMenu(id: string)
      modifies this`actionMenuVisible
      ensures actionMenuVisible == ToggleMenu(old(actionMenuVisible), id)
    {
      actionMenuVisible := ToggleMenu(actionMenuVisible, id);
    }

    /** `handleManageRole`: the member (if any) is selected, the role dialog opens, the menu closes. */
    method ManageRole(id: string)
      modifies this`selectedUser, this`roleModalVisible, this`actionMenuVisible
      ensures selectedUser == Seqs.Find(teamMembers, (m: TeamMember) => m.id == id)
      ensures roleModalVisible && actionMenuVisible == None
    {
      selectedUser := Seqs.Find(teamMembers, (m: TeamMember) => m.id == id);
      roleModalVisible := true;
      actionMenuVisible := None;
    }

    /** `handleRemoveFromTeam`: the member is marked removed and the menu closes. */
    method RemoveMember(id: string)
      modifies this`teamMembers, this`actionMenuVisible
      ensures teamMembers == RemoveFromTeam(old(teamMembers), id) && actionMenuVisible == None
      ensures old(Valid()) ==> Valid()
    {
      teamMembers := RemoveFromTeam(teamMembers, id);
      actionMenuVisible := None;
    }

    /** `handleRoleChange`: the dialog stays open. */
    method ChangeRole(role: string)
      modifies this`teamMembers
      ensures teamMembers == RoleChanged(old(teamMembers), selectedUser, role)
      ensures old(Valid()) ==> Valid()
    {
      teamMembers := RoleChanged(teamMembers, selectedUser, role);
    }

    /** The dialog's Cancel and Save buttons (the role was already changed on selection). */
    method CloseRoleModal()
      modifies this`roleModalVisible
      ensures !roleModalVisible
    {
      roleModalVisible := false;
    }

    method Previous()
      modifies this`currentPage
      ensures currentPage == PrevPage(old(currentPage))
      ensures old(Valid()) ==> Valid()
    {
      currentPage := PrevPage(currentPage);
    }

    method Next()
      modifies this`currentPage
      ensures currentPage == NextPage(old(currentPage), TotalPages(|teamMembers|))
      ensures old(Valid()) ==> Valid()
    {
      currentPage := NextPage(currentPage, TotalPages(|teamMembers|));
    }

    /** The numbered button `i + 1`; buttons exist for `i` in `0 .. totalPages - 1`. */
    method GoToPage(i: nat)
      requires i < TotalPages(|teamMembers|)
      modifies this`currentPage
      ensures currentPage == i + 1
      ensures old(Valid()) ==> Valid()
    {
      currentPage := i + 1;
    }
  }
}
