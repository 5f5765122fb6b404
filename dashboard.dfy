/**
 * The lead feed (src/pages/Dashboard.jsx): the lead records, the four handlers that change them
 * (unlock, like, dislike, assign), and the filter that decides which leads are shown.
 *
 * Each handler replaces the lead list by a copy built with `leads.map(...)`; those copies are the
 * functions below, and the component state they replace is the class `LeadBoard` at the end.
 */
module Dashboard {
  import opened Wrappers
  import Seqs
  import Text

  /** An organisation member as the roster holds it; `assignedTo` keeps a copy of one. */
  datatype OrgUser = OrgUser(id: string, name: string, role: string, avatar: Option<string>, avatarUrl: Option<string>)

  /**
   * A lead. `score` is the text the record holds (`'99'`); `likedBy` and `dislikedBy` hold user ids
   * (a missing list behaves as an empty one everywhere it is read).
   */
  datatype Lead = Lead(
    id: string,
    name: string,
    location: string,
    score: string,
    isRecepNet: bool,
    isLocked: bool,
    unlockCost: nat,
    contacted: bool,
    likedBy: seq<string>,
    dislikedBy: seq<string>,
    assignedTo: Option<OrgUser>,
    avatar: Option<string>)

  /** The inclusive score bounds `[min, max]` of a filter. */
  datatype ScoreRange = ScoreRange(min: int, max: int)

  /** The active filters: countries to keep (none means all) and, when present, a score range. */
  datatype FilterSpec = FilterSpec(locations: seq<string>, score: Option<ScoreRange>)

  /** The filters the page starts with, and what "Clear all filters" restores. */
  const NoFilters := FilterSpec([], Some(ScoreRange(0, 100)))

  // ---------------------------------------------------------------- looking leads up

  function HasId(id: string): Lead -> bool {
    (l: Lead) => l.id == id
  }

  /** `leads.find(l => l.id === leadId)`. */
  function FindLead(leads: seq<Lead>, id: string): (r: Option<Lead>)
    ensures r.Some? ==> r.value in leads && r.value.id == id
    ensures r.None? <==> forall l :: l in leads ==> l.id != id
  {
    Seqs.Find(leads, HasId(id))
  }

  /** `leads.map(l => l.id === id ? f(l) : l)`: `f` applied to every lead with that id. */
  function UpdateLead(leads: seq<Lead>, id: string, f: Lead -> Lead): (r: seq<Lead>)
    ensures |r| == |leads|
    ensures forall i :: 0 <= i < |leads| ==> r[i] == if leads[i].id == id then f(leads[i]) else leads[i]
  {
    seq(|leads|, i requires 0 <= i < |leads| => if leads[i].id == id then f(leads[i]) else leads[i])
  }

  /** An update that keeps every id finds the updated copy of the lead it found before. */
  lemma FindAfterUpdate(leads: seq<Lead>, id: string, f: Lead -> Lead)
    requires forall l :: f(l).id == l.id
    ensures FindLead(UpdateLead(leads, id, f), id)
      == if FindLead(leads, id).Some? then Some(f(FindLead(leads, id).value)) else None
  {
    var r := UpdateLead(leads, id, f);
    var p := HasId(id);
    assert forall j :: 0 <= j < |leads| ==> r[j].id == leads[j].id;
    var before := Seqs.FirstIndex(leads, p);
    var after := Seqs.FirstIndex(r, p);
    if before.None? {
      forall x | x in r ensures !p(x) {
        var j :| 0 <= j < |r| && r[j] == x;
        assert leads[j] in leads;
      }
    } else {
      var i := before.value;
      assert p(r[i]);
      assert after.Some? by {
        assert r[i] in r;
      }
      assert after.value == i;
    }
  }

  // ---------------------------------------------------------------- votes

  /** No user is in both voter lists of the lead. */
  predicate VotesExclusive(l: Lead) {
    forall u :: u in l.likedBy ==> u !in l.dislikedBy
  }

  predicate AllVotesExclusive(leads: seq<Lead>) {
    forall i :: 0 <= i < |leads| ==> VotesExclusive(leads[i])
  }

  /**
   * The lead after `user` presses like: `user` is added to `likedBy` if absent and removed if present,
   * and always removed from `dislikedBy`; nothing else about the lead changes.
   */
  function Liked(l: Lead, user: string): (r: Lead)
    ensures user in r.likedBy <==> user !in l.likedBy
    ensures user !in r.dislikedBy
    ensures forall u :: u in l.likedBy && u != user ==> u in r.likedBy
    ensures forall u :: u in r.likedBy && u != user ==> u in l.likedBy
    ensures forall u :: u in r.dislikedBy ==> u in l.dislikedBy
    ensures forall u :: u in l.dislikedBy && u != user ==> u in r.dislikedBy
    ensures r.(likedBy := l.likedBy, dislikedBy := l.dislikedBy) == l
    ensures VotesExclusive(l) ==> VotesExclusive(r)
  {
    var likedBy := if user in l.likedBy then Seqs.Remove(l.likedBy, user) else l.likedBy + [user];
    l.(likedBy := likedBy, dislikedBy := Seqs.Remove(l.dislikedBy, user))
  }

  /** The mirror image of `Liked`: `user` toggled in `dislikedBy` and removed from `likedBy`. */
  function Disliked(l: Lead, user: string): (r: Lead)
    ensures user in r.dislikedBy <==> user !in l.dislikedBy
    ensures user !in r.likedBy
    ensures forall u :: u in l.dislikedBy && u != user ==> u in r.dislikedBy
    ensures forall u :: u in r.dislikedBy && u != user ==> u in l.dislikedBy
    ensures forall u :: u in r.likedBy ==> u in l.likedBy
    ensures forall u :: u in l.likedBy && u != user ==> u in r.likedBy
    ensures r.(likedBy := l.likedBy, dislikedBy := l.dislikedBy) == l
    ensures VotesExclusive(l) ==> VotesExclusive(r)
  {
    var dislikedBy := if user in l.dislikedBy then Seqs.Remove(l.dislikedBy, user) else l.dislikedBy + [user];
    l.(likedBy := Seqs.Remove(l.likedBy, user), dislikedBy := dislikedBy)
  }

  /** Pressing like twice leaves the user's like as it was and clears any dislike of theirs. */
  lemma LikeTwice(l: Lead, user: string)
    requires VotesExclusive(l)
    ensures var r := Liked(Liked(l, user), user);
      (user in r.likedBy <==> user in l.likedBy) && user !in r.dislikedBy
  {
  }

  // ---------------------------------------------------------------- the four list updates

  /** `handleUnlock`'s new list: `isLocked` cleared on the leads with that id, nothing else changed. */
  function UnlockLeads(leads: seq<Lead>, id: string): (r: seq<Lead>)
    ensures |r| == |leads|
    ensures forall i :: 0 <= i < |leads| && leads[i].id == id ==> !r[i].isLocked
    ensures forall i :: 0 <= i < |leads| ==> r[i].(isLocked := leads[i].isLocked) == leads[i]
    ensures forall i :: 0 <= i < |leads| && leads[i].id != id ==> r[i] == leads[i]
    ensures AllVotesExclusive(leads) ==> AllVotesExclusive(r)
  {
    UpdateLead(leads, id, (l: Lead) => l.(isLocked := false))
  }

  /** `handleLike`'s new list: `Liked` applied to the leads with that id, the others untouched. */
  function LikeLeads(leads: seq<Lead>, id: string, user: string): (r: seq<Lead>)
    ensures |r| == |leads|
    ensures forall i :: 0 <= i < |leads| ==> r[i] == if leads[i].id == id then Liked(leads[i], user) else leads[i]
    ensures AllVotesExclusive(leads) ==> AllVotesExclusive(r)
    ensures forall i :: 0 <= i < |leads| && leads[i].id == id ==> user !in r[i].dislikedBy
  {
    UpdateLead(leads, id, (l: Lead) => Liked(l, user))
  }

  /** `handleDislike`'s new list: `Disliked` applied to the leads with that id, the others untouched. */
  function DislikeLeads(leads: seq<Lead>, id: string, user: string): (r: seq<Lead>)
    ensures |r| == |leads|
    ensures forall i :: 0 <= i < |leads| ==> r[i] == if leads[i].id == id then Disliked(leads[i], user) else leads[i]
    ensures AllVotesExclusive(leads) ==> AllVotesExclusive(r)
    ensures forall i :: 0 <= i < |leads| && leads[i].id == id ==> user !in r[i].likedBy
  {
    UpdateLead(leads, id, (l: Lead) => Disliked(l, user))
  }

  /** `handleAssign`'s new list: the leads with that id hold a copy of the member, nothing else changed. */
  function AssignLeads(leads: seq<Lead>, id: string, member: OrgUser): (r: seq<Lead>)
    ensures |r| == |leads|
    ensures forall i :: 0 <= i < |leads| && leads[i].id == id ==> r[i].assignedTo == Some(member)
    ensures forall i :: 0 <= i < |leads| ==> r[i].(assignedTo := leads[i].assignedTo) == leads[i]
    ensures forall i :: 0 <= i < |leads| && leads[i].id != id ==> r[i] == leads[i]
    ensures AllVotesExclusive(leads) ==> AllVotesExclusive(r)
  {
    UpdateLead(leads, id, (l: Lead) => l.(assignedTo := Some(member)))
  }

  // ---------------------------------------------------------------- unlocking

  /** What `handleUnlock` decides: no such lead, too few credits (the alert), or the cost to charge. */
  datatype UnlockResult = LeadNotFound | NotEnoughCredits | Charged(cost: nat)

  /** The decision for the first lead with that id; it does not look at `isLocked`. */
  function UnlockDecision(leads: seq<Lead>, credits: nat, id: string): (r: UnlockResult)
    ensures r.LeadNotFound? <==> forall l :: l in leads ==> l.id != id
    ensures r.NotEnoughCredits? <==> FindLead(leads, id).Some? && credits < FindLead(leads, id).value.unlockCost
    ensures r.Charged? ==> FindLead(leads, id).Some? && r.cost == FindLead(leads, id).value.unlockCost
    ensures r.Charged? ==> r.cost <= credits
  {
    match FindLead(leads, id)
    case None => LeadNotFound
    case Some(lead) => if credits < lead.unlockCost then NotEnoughCredits else Charged(lead.unlockCost)
  }

  /**
   * Unlocking does not check `isLocked`: unlocking the same lead again charges its cost again
   * (only the card, which hides the button on unlocked leads, prevents it).
   */
  lemma UnlockChargesAgain(leads: seq<Lead>, credits: nat, id: string)
    requires UnlockDecision(leads, credits, id).Charged?
    requires credits >= 2 * UnlockDecision(leads, credits, id).cost
    ensures var cost := UnlockDecision(leads, credits, id).cost;
      UnlockDecision(UnlockLeads(leads, id), credits - cost, id) == Charged(cost)
  {
    FindAfterUpdate(leads, id, (l: Lead) => l.(isLocked := false));
  }

  /** A lead the decision charges for is found again, unlocked, in the new list. */
  lemma UnlockedLeadIsUnlocked(leads: seq<Lead>, credits: nat, id: string)
    requires UnlockDecision(leads, credits, id).Charged?
    ensures FindLead(UnlockLeads(leads, id), id).Some?
    ensures !FindLead(UnlockLeads(leads, id), id).value.isLocked
  {
    FindAfterUpdate(leads, id, (l: Lead) => l.(isLocked := false));
  }

  // ---------------------------------------------------------------- the filter

  /** The country of a location: the text after its last comma, trimmed (`"Mumbai, India"` gives `"India"`). */
  function Country(location: string): (c: string)
    ensures c != [] ==> !Text.IsSpace(c[0]) && !Text.IsSpace(c[|c| - 1])
    ensures ',' !in c
    ensures exists k: nat :: Text.MiddleAt(Text.LastSegment(location, ','), c, k)
  {
    Text.TrimAddsNothing(Text.LastSegment(location, ','), ',');
    Text.Trim(Text.LastSegment(location, ','))
  }

  /** A `"City, Country"` location yields its country. */
  lemma CountryOfCityAndCountry(city: string, country: string)
    requires ',' !in country
    requires country != [] ==> !Text.IsSpace(country[0]) && !Text.IsSpace(country[|country| - 1])
    ensures Country(city + ", " + country) == country
  {
    assert city + ", " + country == city + [','] + (" " + country);
    Text.LastSegmentAfter(city, ',', " " + country);
    Text.TrimLeadingSpace(country);
  }

  /** The score test: inside the inclusive range, or no range, or a score that does not parse (`NaN`). */
  function ScoreInRange(score: string, range: Option<ScoreRange>): (inRange: bool)
    ensures range.None? ==> inRange
    ensures Text.ParseInt(score).None? ==> inRange
    ensures range.Some? && Text.ParseInt(score).Some?
      ==> (inRange <==> range.value.min <= Text.ParseInt(score).value <= range.value.max)
  {
    match range
    case None => true
    case Some(bounds) =>
      match Text.ParseInt(score)
      case None => true
      case Some(v) => bounds.min <= v <= bounds.max
  }

  /** The predicate of `filteredLeads`. */
  function Matches(l: Lead, spec: FilterSpec): (keep: bool)
    ensures keep ==> ScoreInRange(l.score, spec.score)
    ensures spec.locations == [] ==> (keep <==> ScoreInRange(l.score, spec.score))
    ensures spec.locations != [] ==> (keep <==> Country(l.location) in spec.locations && ScoreInRange(l.score, spec.score))
  {
    (|spec.locations| > 0 ==> Country(l.location) in spec.locations)
    && ScoreInRange(l.score, spec.score)
  }

  function Keeps(spec: FilterSpec): Lead -> bool {
    (l: Lead) => Matches(l, spec)
  }

  /** `filteredLeads`: exactly the matching leads, in their original order and with their repetitions. */
  function FilterLeads(leads: seq<Lead>, spec: FilterSpec): (r: seq<Lead>)
    ensures Seqs.IsSubsequence(r, leads)
    ensures forall l :: l in r ==> l in leads && Matches(l, spec)
    ensures forall l :: l in leads && Matches(l, spec) ==> l in r
    ensures forall l :: multiset(r)[l] == if Matches(l, spec) then multiset(leads)[l] else 0
  {
    Seqs.FilterIsSubsequence(leads, Keeps(spec));
    Seqs.FilterMultiset(leads, Keeps(spec));
    Seqs.Filter(leads, Keeps(spec))
  }

  /** The starting filters show every lead whose score is in 0..100 or is not a number. */
  lemma {:induction false} NoFiltersShowAll(leads: seq<Lead>)
    requires forall l :: l in leads ==> match Text.ParseInt(l.score)
      case None => true
      case Some(v) => 0 <= v <= 100
    ensures FilterLeads(leads, NoFilters) == leads
  {
    Seqs.FilterKeepsAll(leads, Keeps(NoFilters));
  }

  /** Of a lead in Mumbai and one in London, selecting India keeps only the first. */
  lemma FilterByCountryExample(mumbai: Lead, london: Lead)
    requires mumbai.location == "Mumbai, India" && mumbai.score == "99"
    requires london.location == "London, United Kingdom" && london.score == "50"
    ensures FilterLeads([mumbai, london], FilterSpec(["India"], Some(ScoreRange(0, 100)))) == [mumbai]
  {
    var spec := FilterSpec(["India"], Some(ScoreRange(0, 100)));
    IndiaKeepsMumbai(mumbai);
    IndiaDropsLondon(london);
    KeepFirstOfTwo(mumbai, london, spec);
  }

  /** The Mumbai lead passes the India filter. */
  lemma IndiaKeepsMumbai(mumbai: Lead)
    requires mumbai.location == "Mumbai, India" && mumbai.score == "99"
    ensures Matches(mumbai, FilterSpec(["India"], Some(ScoreRange(0, 100))))
  {
    MumbaiIsInIndia();
    SampleScores();
  }

  /** The London lead fails the India filter. */
  lemma IndiaDropsLondon(london: Lead)
    requires london.location == "London, United Kingdom"
    ensures !Matches(london, FilterSpec(["India"], Some(ScoreRange(0, 100))))
  {
    LondonIsInTheUnitedKingdom();
    NotIndia(Country(london.location));
  }

  /** A country name of another length is not India. */
  lemma NotIndia(c: string)
    requires c == "United Kingdom"
    ensures c !in ["India"]
  {
    assert |c| != |"India"|;
  }

  /** Of a lead scoring 99 and one scoring 50, asking for at least 60 keeps only the first. */
  lemma FilterByScoreExample(mumbai: Lead, london: Lead)
    requires mumbai.location == "Mumbai, India" && mumbai.score == "99"
    requires london.location == "London, United Kingdom" && london.score == "50"
    ensures FilterLeads([mumbai, london], FilterSpec([], Some(ScoreRange(60, 100)))) == [mumbai]
  {
    var spec := FilterSpec([], Some(ScoreRange(60, 100)));
    assert Matches(mumbai, spec) && !Matches(london, spec) by {
      SampleScores();
    }
    KeepFirstOfTwo(mumbai, london, spec);
  }

  /** The country of the first sample lead. */
  lemma MumbaiIsInIndia()
    ensures Country("Mumbai, India") == "India"
  {
    assert "Mumbai, India" == "Mumbai" + ", " + "India";
    CountryOfCityAndCountry("Mumbai", "India");
  }

  /** The country of the second sample lead. */
  lemma LondonIsInTheUnitedKingdom()
    ensures Country("London, United Kingdom") == "United Kingdom"
  {
    assert "London, United Kingdom" == "London" + ", " + "United Kingdom";
    CountryOfCityAndCountry("London", "United Kingdom");
  }

  /** The sample scores are the decimal forms of 99 and 50. */
  lemma SampleScores()
    ensures Text.ParseInt("99") == Some(99) && Text.ParseInt("50") == Some(50)
  {
    assert Text.DigitChar(9) == '9' && Text.DigitChar(5) == '5' && Text.DigitChar(0) == '0';
    assert Text.IntToString(99) == "99";
    assert Text.IntToString(50) == "50";
    Text.ParseIntToString(99);
    Text.ParseIntToString(50);
  }

  /** Filtering two leads of which only the first matches. */
  lemma KeepFirstOfTwo(a: Lead, b: Lead, spec: FilterSpec)
    requires Keeps(spec)(a) && !Keeps(spec)(b)
    ensures FilterLeads([a, b], spec) == [a]
  {
    Seqs.FilterFirstOfTwo(a, b, Keeps(spec));
  }

  /** Filtering twice with the same filters is filtering once. */
  lemma FilterIdempotent(leads: seq<Lead>, spec: FilterSpec)
    ensures FilterLeads(FilterLeads(leads, spec), spec) == FilterLeads(leads, spec)
  {
    Seqs.FilterKeepsAll(FilterLeads(leads, spec), Keeps(spec));
  }

  // ---------------------------------------------------------------- the page state

  /** `organizationUsers.find(user => user.id === userId)`. */
  function FindMember(roster: seq<OrgUser>, id: string): (r: Option<OrgUser>)
    ensures r.Some? ==> r.value in roster && r.value.id == id
    ensures r.None? <==> forall u :: u in roster ==> u.id != id
  {
    Seqs.Find(roster, (u: OrgUser) => u.id == id)
  }

  /** The dashboard's state: the leads, the signed-in user's credits and id, the roster and the active filters. */
  class LeadBoard {
    var leads: seq<Lead>
    var credits: nat
    const userId: string
    const roster: seq<OrgUser>
    var activeFilters: FilterSpec

    /** Every lead keeps its two voter lists apart. */
    ghost predicate Valid()
      reads this
    {
      AllVotesExclusive(leads)
    }

    constructor (leads: seq<Lead>, credits: nat, userId: string, roster: seq<OrgUser>)
      ensures this.leads == leads && this.credits == credits && this.userId == userId && this.roster == roster
      ensures activeFilters == NoFilters
    {
      this.leads := leads;
      this.credits := credits;
      this.userId := userId;
      this.roster := roster;
      activeFilters := NoFilters;
    }

    /** The leads on screen. */
    function Visible(): seq<Lead>
      reads this
    {
      FilterLeads(leads, activeFilters)
    }

    /** `handleUnlock`: charges the first matching lead's cost and unlocks it, unless it is missing or too dear. */
    method Unlock(leadId: string) returns (result: UnlockResult)
      modifies this`leads, this`credits
      ensures result == UnlockDecision(old(leads), old(credits), leadId)
      ensures credits == if result.Charged? then old(credits) - result.cost else old(credits)
      ensures leads == if result.Charged? then UnlockLeads(old(leads), leadId) else old(leads)
      ensures old(Valid()) ==> Valid()
    {
      var lead := FindLead(leads, leadId);
      if lead.None? {
        return LeadNotFound;
      }
      var cost := lead.value.unlockCost;
      if credits < cost {
        return NotEnoughCredits;
      }
      credits := credits - cost;
      leads := UnlockLeads(leads, leadId);
      result := Charged(cost);
    }

    /** `handleLike` by the signed-in user. */
    method Like(leadId: string)
      modifies this`leads
      ensures leads == LikeLeads(old(leads), leadId, userId)
      ensures old(Valid()) ==> Valid()
    {
      leads := LikeLeads(leads, leadId, userId);
    }

    /** `handleDislike` by the signed-in user. */
    method Dislike(leadId: string)
      modifies this`leads
      ensures leads == DislikeLeads(old(leads), leadId, userId)
      ensures old(Valid()) ==> Valid()
    {
      leads := DislikeLeads(leads, leadId, userId);
    }

    /** `handleAssign`: a member that is not on the roster changes nothing. */
    method Assign(leadId: string, memberId: string) returns (done: bool)
      modifies this`leads
      ensures done <==> FindMember(roster, memberId).Some?
      ensures leads == if done then AssignLeads(old(leads), leadId, FindMember(roster, memberId).value) else old(leads)
      ensures old(Valid()) ==> Valid()
    {
      var member := FindMember(roster, memberId);
      if member.None? {
        return false;
      }
      leads := AssignLeads(leads, leadId, member.value);
      done := true;
    }

    /** `handleApplyFilters`. */
    method ApplyFilters(spec: FilterSpec)
      modifies this`activeFilters
      ensures activeFilters == spec
    {
      activeFilters := spec;
    }

    /** The "Clear all filters" button. */
    method ClearFilters()
      modifies this`activeFilters
      ensures activeFilters == NoFilters
    {
      activeFilters := NoFilters;
    }
  }
}
