/**
 * The administrator's KYC review screen: the KYC rows, optionally
 * restricted to one status, each joined with its applicant's profile, and
 * the approve / reject review that writes the new status back.
 */
module AdminKyc {
  import opened Wrappers
  import opened Text
  import opened Notices
  import Profile

  /** A KYC row as the review screen uses it. */
  datatype KycRow = KycRow(id: string, userId: string, status: string, rejectionReason: Option<string>)

  /** The columns of a profile the screen selects; null columns are None. */
  datatype ProfileRow = ProfileRow(id: string, firstName: Option<string>, lastName: Option<string>, email: Option<string>)

  /** A KYC row with the profile joined to it, or null. */
  datatype Listed = Listed(kyc: KycRow, profile: Option<ProfileRow>)

  // ---------------------------------------------------------------- the query

  function Filter<T(!new)>(s: seq<T>, keep: T -> bool): (r: seq<T>)
    ensures |r| <= |s|
    ensures forall x :: x in r <==> x in s && keep(x)
  {
    if s == [] then []
    else
      var rest := Filter(s[1..], keep);
      assert forall x :: x in s <==> x == s[0] || x in s[1..];
      if keep(s[0]) then [s[0]] + rest else rest
  }

  /** Filtering a row followed by more rows. */
  lemma FilterCons<T(!new)>(x: T, t: seq<T>, keep: T -> bool)
    ensures Filter([x] + t, keep) == if keep(x) then [x] + Filter(t, keep) else Filter(t, keep)
  {
    assert ([x] + t)[1..] == t;
  }

  /** Filtering keeps the order of the rows: the rows kept from `a + b` are those kept from `a`, then those from `b`. */
  lemma {:induction false} FilterAppend<T(!new)>(a: seq<T>, b: seq<T>, keep: T -> bool)
    ensures Filter(a + b, keep) == Filter(a, keep) + Filter(b, keep)
  {
    if a == [] {
      assert a + b == b;
    } else {
      var x, t := a[0], a[1..];
      assert a == [x] + t && a + b == [x] + (t + b);
      FilterCons(x, t + b, keep);
      FilterCons(x, t, keep);
      FilterAppend(t, b, keep);
      var ft, fb := Filter(t, keep), Filter(b, keep);
      assert [x] + (ft + fb) == ([x] + ft) + fb;
    }
  }

  lemma {:induction false} FilterAll<T(!new)>(s: seq<T>, keep: T -> bool)
    requires forall x :: x in s ==> keep(x)
    ensures Filter(s, keep) == s
  {
    if s != [] {
      assert forall x :: x in s[1..] ==> x in s;
      FilterAll(s[1..], keep);
      assert [s[0]] + s[1..] == s;
    }
  }

  /** Whether a row passes the status filter: 'all' adds no condition, any other filter is the status to match. */
  predicate PassesFilter(filter: string, row: KycRow) {
    filter == "all" || row.status == filter
  }

  function Query(filter: string, table: seq<KycRow>): (rows: seq<KycRow>)
    ensures forall r :: r in rows <==> r in table && (filter == "all" || r.status == filter)
  {
    Filter(table, (r: KycRow) => PassesFilter(filter, r))
  }

  lemma FilterAllKeepsEverything(table: seq<KycRow>)
    ensures Query("all", table) == table
  {
    FilterAll(table, (r: KycRow) => PassesFilter("all", r));
  }

  // ---------------------------------------------------------------- the join

  /** `[...new Set(ids)]`: every id, each once. */
  function Dedupe(ids: seq<string>): (r: seq<string>)
    ensures forall x :: x in r <==> x in ids
    ensures forall i, j :: 0 <= i < j < |r| ==> r[i] != r[j]
  {
    if ids == [] then []
    else
      var prefix := ids[..|ids| - 1];
      var last := ids[|ids| - 1];
      assert forall x :: x in ids <==> x in prefix || x == last;
      var r := Dedupe(prefix);
      if last in r then r else r + [last]
  }

  function UserIds(rows: seq<KycRow>): (ids: seq<string>)
    ensures |ids| == |rows| && forall i :: 0 <= i < |rows| ==> ids[i] == rows[i].userId
  {
    seq(|rows|, i requires 0 <= i < |rows| => rows[i].userId)
  }

  /** The profile object keyed by id; when two profiles share an id the later one is kept. */
  function ProfileMapOf(profiles: seq<ProfileRow>): (m: map<string, ProfileRow>)
    ensures forall id :: id in m ==> m[id].id == id && m[id] in profiles
    ensures forall p :: p in profiles ==> p.id in m
  {
    if profiles == [] then map[]
    else
      var prefix := profiles[..|profiles| - 1];
      var last := profiles[|profiles| - 1];
      assert forall p :: p in profiles <==> p in prefix || p == last;
      ProfileMapOf(prefix)[last.id := last]
  }

  /** The profile kept for an id is the last one with that id. */
  lemma {:induction false} LaterProfileWins(profiles: seq<ProfileRow>, i: nat)
    requires i < |profiles|
    requires forall j :: i < j < |profiles| ==> profiles[j].id != profiles[i].id
    ensures ProfileMapOf(profiles)[profiles[i].id] == profiles[i]
  {
    if i < |profiles| - 1 {
      var prefix := profiles[..|profiles| - 1];
      LaterProfileWins(prefix, i);
    }
  }

  /** The `reduce` that fills the profile object one profile at a time. */
  method BuildProfileMap(profiles: seq<ProfileRow>) returns (acc: map<string, ProfileRow>)
    ensures acc == ProfileMapOf(profiles)
  {
    acc := map[];
    var i := 0;
    while i < |profiles|
      invariant 0 <= i <= |profiles|
      invariant acc == ProfileMapOf(profiles[..i])
    {
      assert profiles[..i + 1][..i] == profiles[..i];
      acc := acc[profiles[i].id := profiles[i]];
      i := i + 1;
    }
    assert profiles[..i] == profiles;
  }

  /** Each row, in order, with the profile whose id is its user id, or null. */
  function Merge(rows: seq<KycRow>, profileMap: map<string, ProfileRow>): (listed: seq<Listed>)
    ensures |listed| == |rows|
    ensures forall i :: 0 <= i < |rows| ==> listed[i].kyc == rows[i]
    ensures forall i :: 0 <= i < |rows| ==> (listed[i].profile.Some? <==> rows[i].userId in profileMap)
    ensures forall i :: 0 <= i < |rows| && listed[i].profile.Some? ==> listed[i].profile.value == profileMap[rows[i].userId]
  {
    seq(|rows|, i requires 0 <= i < |rows| =>
      Listed(rows[i], if rows[i].userId in profileMap then Some(profileMap[rows[i].userId]) else None))
  }

  /** The profiles the `in('id', userIds)` select returns: those of the table whose id is asked for. */
  function ProfilesFor(ids: seq<string>, profileTable: seq<ProfileRow>): (r: seq<ProfileRow>)
    ensures forall p :: p in r <==> p in profileTable && p.id in ids
  {
    Filter(profileTable, (p: ProfileRow) => p.id in ids)
  }

  /** The joined list: every row joined with a profile of the table exactly when the table has one with its user id, and only with such a profile. */
  lemma JoinMatchesUsers(rows: seq<KycRow>, profileTable: seq<ProfileRow>)
    ensures var listed := Merge(rows, ProfileMapOf(ProfilesFor(Dedupe(UserIds(rows)), profileTable)));
      forall i :: 0 <= i < |rows| ==>
        && (listed[i].profile.Some? <==> exists p :: p in profileTable && p.id == rows[i].userId)
        && (listed[i].profile.Some? ==> listed[i].profile.value in profileTable && listed[i].profile.value.id == rows[i].userId)
  {
    var ids := Dedupe(UserIds(rows));
    forall i | 0 <= i < |rows| ensures rows[i].userId in ids {
      assert UserIds(rows)[i] == rows[i].userId;
    }
  }

  // ---------------------------------------------------------------- display and review

  /** `getKYCUser`: the trimmed "first last", else the email (a null email shows as nothing), else 'Unknown User' without a profile. */
  function DisplayName(row: Listed): (name: string)
    ensures row.profile.None? ==> name == "Unknown User"
    ensures row.profile.Some? ==>
      var p := row.profile.value;
      var full := Trim(p.firstName.GetOr("") + " " + p.lastName.GetOr(""));
      && (full != "" ==> name == full)
      && (full == "" ==> name == p.email.GetOr(""))
  {
    match row.profile
    case None => "Unknown User"
    case Some(p) =>
      var full := Trim(p.firstName.GetOr("") + " " + p.lastName.GetOr(""));
      if full != "" then full else p.email.GetOr("")
  }

  /** A profile with neither name still shows its email. */
  lemma NamelessProfileShowsEmail(row: KycRow, id: string, email: string)
    ensures DisplayName(Listed(row, Some(ProfileRow(id, None, None, Some(email))))) == email
  {
    assert IsBlank("" + " " + "");
  }

  /** The write a review makes to the KYC row. */
  datatype ReviewUpdate = ReviewUpdate(status: string, reviewedAt: string, reviewedBy: string, rejectionReason: Option<string>)

  /** As written, review actions appear only for status 'submitted'. */
  predicate ReviewOfferedAsWritten(status: string) {
    status == "submitted"
  }

  /** The statuses a submission leaves a KYC in while it waits for review. */
  predicate AwaitingReview(status: string) {
    status == "submitted" || status == "pending"
  }

  /**
   * A KYC resubmitted after rejection is sent as 'pending', which the screen
   * as written does not offer for review; only the owner's next submission,
   * sent as 'submitted', brings it back.
   */
  lemma ResubmissionStrandedAsWritten(id: string)
    ensures var rejected := Profile.KycRecord(id, Some("rejected"), None, None, None);
      var resubmitted := rejected.(status := Some(Profile.SubmitStatus(Some(rejected))));
      !ReviewOfferedAsWritten(resubmitted.status.value)
      && ReviewOfferedAsWritten(Profile.SubmitStatus(Some(resubmitted)))
  {
  }

  /** Whatever the previous record, the status a submission sends is one awaiting review. */
  lemma EverySubmissionReviewable(previous: Option<Profile.KycRecord>)
    ensures AwaitingReview(Profile.SubmitStatus(previous))
  {
  }

  class AdminKycPage {
    var kycList: seq<Listed>
    var filter: string
    var selected: Option<Listed>
    var loading: bool
    var submitting: bool
    var notification: Option<Notice>
    var rejectionReason: string
    /** The user ids of the last profile select. */
    var profileQuery: seq<string>
    /** The review writes made, oldest first, each with the id of the row it updates. */
    var reviews: seq<(string, ReviewUpdate)>

    constructor ()
      ensures kycList == [] && filter == "all" && selected.None? && loading && !submitting
      ensures notification.None? && rejectionReason == "" && profileQuery == [] && reviews == []
    {
      kycList := [];
      filter := "all";
      selected := None;
      loading := true;
      submitting := false;
      notification := None;
      rejectionReason := "";
      profileQuery := [];
      reviews := [];
    }

    method SetFilter(f: string)
      modifies this`filter
      ensures filter == f
    {
      filter := f;
    }

    /**
     * `loadKYC`, given the KYC table (None when the select fails) and the
     * profiles table (None when that select fails, which reads as no
     * profiles).
     */
    method LoadKyc(table: Option<seq<KycRow>>, profileTable: Option<seq<ProfileRow>>)
      modifies this`kycList, this`loading, this`notification, this`profileQuery
      ensures !loading
      ensures table.None? ==> kycList == old(kycList) && profileQuery == old(profileQuery)
      ensures table.None? ==> notification == Some(Notice(ErrorNotice, "Error", "Failed to load KYC applications."))
      ensures table.Some? && Query(filter, table.value) == [] ==> kycList == [] && profileQuery == old(profileQuery)
      ensures table.Some? && Query(filter, table.value) != [] ==>
        var rows := Query(filter, table.value);
        && profileQuery == Dedupe(UserIds(rows))
        && kycList == Merge(rows, ProfileMapOf(ProfilesFor(profileQuery, profileTable.GetOr([]))))
      ensures table.Some? ==> notification == old(notification)
    {
      loading := true;
      if table.None? {
        notification := Some(Notice(ErrorNotice, "Error", "Failed to load KYC applications."));
        loading := false;
        return;
      }
      var rows := Query(filter, table.value);
      if rows == [] {
        kycList := [];
        loading := false;
        return;
      }
      profileQuery := Dedupe(UserIds(rows));
      var profileMap := BuildProfileMap(ProfilesFor(profileQuery, profileTable.GetOr([])));
      kycList := Merge(rows, profileMap);
      loading := false;
    }

    /**
     * The modal's reject button: enabled only with a reason that is not
     * empty once trimmed and while no review is in flight, so an enabled
     * button never reaches the blank-reason refusal of `handleReview`.
     */
    function RejectEnabled(): (enabled: bool)
      reads this
      ensures enabled <==> !submitting && Trim(rejectionReason) != []
      ensures enabled ==> !(IsBlank(rejectionReason))
    {
      !submitting && !IsBlank(rejectionReason)
    }

    method ViewDetails(row: Listed)
      modifies this`selected
      ensures selected == Some(row)
    {
      selected := Some(row);
    }

    method CloseDetails()
      modifies this`selected
      ensures selected.None?
    {
      selected := None;
    }

    /** The list's reject button opens the row with its earlier reason, if any, filled in. */
    method StartReject(row: Listed)
      modifies this`selected, this`rejectionReason
      ensures selected == Some(row) && rejectionReason == row.kyc.rejectionReason.GetOr("")
    {
      selected := Some(row);
      rejectionReason := row.kyc.rejectionReason.GetOr("");
    }

    method SetRejectionReason(reason: string)
      modifies this`rejectionReason
      ensures rejectionReason == reason
    {
      rejectionReason := reason;
    }

    /**
     * `handleReview` by the signed-in administrator at time `now`, with
     * whether the update fails: a rejection without a reason writes
     * nothing; otherwise one update is written, carrying the reason exactly
     * when it is a rejection.
     */
    method HandleReview(kycId: string, status: string, reviewer: string, now: string, failed: bool)
      modifies this`submitting, this`notification, this`selected, this`rejectionReason, this`reviews
      ensures !submitting
      ensures status == "rejected" && IsBlank(old(rejectionReason)) ==>
        && reviews == old(reviews) && selected == old(selected) && rejectionReason == old(rejectionReason)
        && notification == Some(Notice(ErrorNotice, "Error", "Please provide a rejection reason."))
      ensures !(status == "rejected" && IsBlank(old(rejectionReason))) ==>
        && |reviews| == |old(reviews)| + 1 && reviews[..|old(reviews)|] == old(reviews)
        && reviews[|old(reviews)|].0 == kycId
        && reviews[|old(reviews)|].1.status == status
        && reviews[|old(reviews)|].1.reviewedBy == reviewer
        && reviews[|old(reviews)|].1.reviewedAt == now
        && (reviews[|old(reviews)|].1.rejectionReason.Some? <==> status == "rejected")
        && (status == "rejected" ==> reviews[|old(reviews)|].1.rejectionReason.value == old(rejectionReason))
      ensures !(status == "rejected" && IsBlank(old(rejectionReason))) && !failed ==>
        && selected.None? && rejectionReason == ""
        && notification == Some(Notice(SuccessNotice, "Success",
             if status == "verified" then "KYC approved successfully." else "KYC rejected successfully."))
      ensures !(status == "rejected" && IsBlank(old(rejectionReason))) && failed ==>
        && selected == old(selected) && rejectionReason == old(rejectionReason)
        && notification == Some(Notice(ErrorNotice, "Error", "Failed to update KYC status."))
    {
      if status == "rejected" && IsBlank(rejectionReason) {
        notification := Some(Notice(ErrorNotice, "Error", "Please provide a rejection reason."));
        submitting := false;
        return;
      }
      submitting := true;
      var update := ReviewUpdate(status, now, reviewer, None);
      if status == "rejected" {
        update := update.(rejectionReason := Some(rejectionReason));
      }
      reviews := reviews + [(kycId, update)];
      if failed {
        notification := Some(Notice(ErrorNotice, "Error", "Failed to update KYC status."));
      } else {
        notification := Some(Notice(SuccessNotice, "Success",
          if status == "verified" then "KYC approved successfully." else "KYC rejected successfully."));
        selected := None;
        rejectionReason := "";
      }
      submitting := false;
    }
  }
}
