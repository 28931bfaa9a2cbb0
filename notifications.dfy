/** Notifications: the notification table, the job queue its ids are handed to,
    the delivery job that marks a notification sent, and the per-user listing. */
module Notifications {
  import opened Common
  import opened Accounts

  datatype Notification = Notification(id: nat, user: UserId, message: string, createdAt: nat, sent: bool)

  /** An email handed to the transport. */
  datatype Email = Email(subject: string, body: string, to: string)

  /** The subject line the job uses, a literal in the source. */
  const Subject: string := "notification.title"

  /** What one run of the delivery job did: the lookup of the notification or of its
      user failed, the send raised, or the send succeeded. Every case is logged and
      none propagates to the caller. */
  datatype Delivery = NotFound | SendFailed(email: Email) | Delivered(email: Email)

  /** One delivery job: the notification id it carries and whether the send succeeds. */
  datatype Job = Job(id: nat, sendSucceeds: bool)

  // ---- Lookup and the delivery step as functions of the table ----

  /** `Notification.objects.get(id=...)`. */
  function Lookup(rows: seq<Notification>, id: nat): (r: Option<Notification>)
    ensures r.None? <==> forall i :: 0 <= i < |rows| ==> rows[i].id != id
    ensures r.Some? ==> r.value in rows && r.value.id == id
  {
    if rows == [] then None
    else if rows[0].id == id then Some(rows[0])
    else
      var r := Lookup(rows[1..], id);
      assert forall i :: 1 <= i < |rows| ==> rows[i] == rows[1..][i - 1];
      r
  }

  /** The email the job sends for a notification whose user is known. */
  function EmailFor(n: Notification, users: map<UserId, User>): Email
    requires n.user in users
  {
    Email(Subject, n.message, users[n.user].email)
  }

  /** What the job reports for `job` against the table and the user table. */
  function Outcome(rows: seq<Notification>, users: map<UserId, User>, job: Job): (d: Delivery)
    ensures d.NotFound? <==> Lookup(rows, job.id).None? || Lookup(rows, job.id).value.user !in users
    ensures d.Delivered? ==> job.sendSucceeds
    ensures d.SendFailed? ==> !job.sendSucceeds
    ensures !d.NotFound? ==>
      var n := Lookup(rows, job.id).value;
      d.email == Email(Subject, n.message, users[n.user].email)
  {
    match Lookup(rows, job.id)
    case None => NotFound
    case Some(n) =>
      if n.user !in users then NotFound
      else if job.sendSucceeds then Delivered(EmailFor(n, users))
      else SendFailed(EmailFor(n, users))
  }

  /** Every row carrying `id` gets `sent = true`; nothing else changes. */
  function MarkSent(rows: seq<Notification>, id: nat): (r: seq<Notification>)
    ensures |r| == |rows|
    ensures forall i :: 0 <= i < |rows| ==> r[i] == rows[i].(sent := rows[i].sent || rows[i].id == id)
  {
    seq(|rows|, i requires 0 <= i < |rows| => if rows[i].id == id then rows[i].(sent := true) else rows[i])
  }

  /** The table after the job: marked sent only when the send succeeded. */
  function Step(rows: seq<Notification>, users: map<UserId, User>, job: Job): (r: seq<Notification>)
    ensures |r| == |rows|
    ensures forall i :: 0 <= i < |rows| ==> r[i] == rows[i].(sent := r[i].sent) && (rows[i].sent ==> r[i].sent)
    ensures forall i :: 0 <= i < |rows| && r[i].sent != rows[i].sent ==>
      rows[i].id == job.id && Outcome(rows, users, job).Delivered?
  {
    if Outcome(rows, users, job).Delivered? then MarkSent(rows, job.id) else rows
  }

  /** The table after a sequence of jobs, run one after the other. */
  function RunJobs(rows: seq<Notification>, users: map<UserId, User>, jobs: seq<Job>): (r: seq<Notification>)
    ensures |r| == |rows|
    ensures forall i :: 0 <= i < |rows| ==> r[i] == rows[i].(sent := r[i].sent) && (rows[i].sent ==> r[i].sent)
    decreases |jobs|
  {
    if jobs == [] then rows else RunJobs(Step(rows, users, jobs[0]), users, jobs[1..])
  }

  /** A job that delivers row `n`: it carries n's id, n's user is known, the send succeeds. */
  predicate Delivers(job: Job, n: Notification, users: map<UserId, User>)
  {
    job.id == n.id && n.user in users && job.sendSucceeds
  }

  predicate UniqueIds(rows: seq<Notification>)
  {
    forall i, j :: 0 <= i < j < |rows| ==> rows[i].id != rows[j].id
  }

  // ---- Properties of the delivery job ----

  /** One job changes at most the `sent` flag, only of the looked-up row, only to true. */
  lemma StepOnlyMarksSent(rows: seq<Notification>, users: map<UserId, User>, job: Job)
    requires UniqueIds(rows)
    ensures var r := Step(rows, users, job);
      && |r| == |rows|
      && forall i :: 0 <= i < |rows| ==>
           r[i] == rows[i].(sent := rows[i].sent || Delivers(job, rows[i], users))
  {
    var r := Step(rows, users, job);
    forall i | 0 <= i < |rows|
      ensures r[i] == rows[i].(sent := rows[i].sent || Delivers(job, rows[i], users))
    {
      var o := Lookup(rows, job.id);
      if rows[i].id == job.id {
        var k :| 0 <= k < |rows| && rows[k] == o.value;
        assert k == i;
      }
    }
  }

  /** Re-running a job on a notification already sent sends the email again and
      leaves the table as it was. */
  lemma ResendIsHarmless(rows: seq<Notification>, users: map<UserId, User>, job: Job, i: nat)
    requires UniqueIds(rows)
    requires i < |rows| && rows[i].id == job.id && rows[i].sent
    requires rows[i].user in users && job.sendSucceeds
    ensures Outcome(rows, users, job) == Delivered(EmailFor(rows[i], users))
    ensures Step(rows, users, job) == rows
  {
    StepOnlyMarksSent(rows, users, job);
    var o := Lookup(rows, job.id);
    var k :| 0 <= k < |rows| && rows[k] == o.value;
    assert k == i;
  }

  /** After any sequence of jobs, a notification is sent exactly when it was sent
      before or some job delivered it; its other fields never change. */
  lemma {:induction false} SentAfterJobs(rows: seq<Notification>, users: map<UserId, User>, jobs: seq<Job>)
    requires UniqueIds(rows)
    ensures var r := RunJobs(rows, users, jobs);
      && |r| == |rows|
      && forall i :: 0 <= i < |rows| ==>
           r[i] == rows[i].(sent := rows[i].sent || exists k :: 0 <= k < |jobs| && Delivers(jobs[k], rows[i], users))
    decreases |jobs|
  {
    if jobs != [] {
      var s := Step(rows, users, jobs[0]);
      StepOnlyMarksSent(rows, users, jobs[0]);
      assert UniqueIds(s) by {
        forall i, j | 0 <= i < j < |s| ensures s[i].id != s[j].id {
          assert s[i].id == rows[i].id && s[j].id == rows[j].id;
        }
      }
      SentAfterJobs(s, users, jobs[1..]);
      var r := RunJobs(rows, users, jobs);
      forall i | 0 <= i < |rows|
        ensures r[i] == rows[i].(sent := rows[i].sent || exists k :: 0 <= k < |jobs| && Delivers(jobs[k], rows[i], users))
      {
        var later := exists k :: 0 <= k < |jobs[1..]| && Delivers(jobs[1..][k], s[i], users);
        var any := exists k :: 0 <= k < |jobs| && Delivers(jobs[k], rows[i], users);
        if later {
          var k :| 0 <= k < |jobs[1..]| && Delivers(jobs[1..][k], s[i], users);
          assert Delivers(jobs[k + 1], rows[i], users);
        }
        if any && !Delivers(jobs[0], rows[i], users) {
          var k :| 0 <= k < |jobs| && Delivers(jobs[k], rows[i], users);
          assert k != 0;
          assert Delivers(jobs[1..][k - 1], s[i], users);
        }
      }
    }
  }

  /** `sent` never goes back to false, whatever jobs run. */
  lemma SentIsMonotone(rows: seq<Notification>, users: map<UserId, User>, jobs: seq<Job>, i: nat)
    requires UniqueIds(rows)
    requires i < |rows| && rows[i].sent
    ensures i < |RunJobs(rows, users, jobs)| && RunJobs(rows, users, jobs)[i].sent
  {
    SentAfterJobs(rows, users, jobs);
  }

  /** An unknown id is reported and changes nothing; a stored notification whose user
      is known gets its message sent to that user's address, and is marked sent
      exactly when the send succeeds. */
  lemma DeliveryOutcomes(rows: seq<Notification>, users: map<UserId, User>, job: Job)
    requires UniqueIds(rows)
    ensures (forall i :: 0 <= i < |rows| ==> rows[i].id != job.id) ==>
      Outcome(rows, users, job) == NotFound && Step(rows, users, job) == rows
    ensures forall i :: 0 <= i < |rows| && rows[i].id == job.id && rows[i].user in users ==>
      var email := Email(Subject, rows[i].message, users[rows[i].user].email);
      && Outcome(rows, users, job) == (if job.sendSucceeds then Delivered(email) else SendFailed(email))
      && (Step(rows, users, job)[i].sent <==> rows[i].sent || job.sendSucceeds)
  {
    StepOnlyMarksSent(rows, users, job);
    forall i | 0 <= i < |rows| && rows[i].id == job.id && rows[i].user in users
      ensures Outcome(rows, users, job) ==
        (var email := Email(Subject, rows[i].message, users[rows[i].user].email);
         if job.sendSucceeds then Delivered(email) else SendFailed(email))
    {
      var o := Lookup(rows, job.id);
      var k :| 0 <= k < |rows| && rows[k] == o.value;
      assert k == i;
    }
  }

  // ---- The listing ----

  /** `filter(user=...)`: the rows addressed to `user`, in table order. */
  function OwnedBy(rows: seq<Notification>, user: UserId): (r: seq<Notification>)
    ensures |r| <= |rows|
    ensures forall n :: n in r <==> n in rows && n.user == user
    ensures forall n: Notification :: n.user == user ==> multiset(r)[n] == multiset(rows)[n]
    decreases |rows|
  {
    if rows == [] then []
    else
      var init := rows[..|rows| - 1];
      var last := rows[|rows| - 1];
      assert rows == init + [last];
      OwnedBy(init, user) + (if last.user == user then [last] else [])
  }

  predicate NewestFirst(s: seq<Notification>)
  {
    forall i, j :: 0 <= i < j < |s| ==> s[i].createdAt >= s[j].createdAt
  }

  /** Putting a row no older than anything in `rest` in front of a sorted permutation
      of `rest` plus an older row keeps the order. */
  lemma PrependNewest(h: Notification, rest: seq<Notification>, n: Notification, t: seq<Notification>)
    requires NewestFirst([h] + rest) && NewestFirst(t)
    requires n.createdAt < h.createdAt
    requires multiset(t) == multiset(rest) + multiset{n}
    ensures NewestFirst([h] + t)
  {
    forall j | 0 <= j < |t| ensures h.createdAt >= t[j].createdAt {
      assert t[j] in multiset(t);
      if t[j] != n {
        assert t[j] in multiset(rest);
        var k :| 0 <= k < |rest| && rest[k] == t[j];
        assert ([h] + rest)[0] == h && ([h] + rest)[k + 1] == t[j];
      }
    }
    var r := [h] + t;
    forall i, j | 0 <= i < j < |r| ensures r[i].createdAt >= r[j].createdAt {
      if i == 0 {
        assert r[j] == t[j - 1];
      } else {
        assert r[i] == t[i - 1] && r[j] == t[j - 1];
      }
    }
  }

  function InsertNewestFirst(n: Notification, s: seq<Notification>): (r: seq<Notification>)
    requires NewestFirst(s)
    ensures NewestFirst(r)
    ensures multiset(r) == multiset(s) + multiset{n}
    decreases |s|
  {
    if s == [] || n.createdAt >= s[0].createdAt then [n] + s
    else
      assert s == [s[0]] + s[1..];
      var t := InsertNewestFirst(n, s[1..]);
      PrependNewest(s[0], s[1..], n, t);
      [s[0]] + t
  }

  /** `order_by("-created_at")`. */
  function SortNewestFirst(s: seq<Notification>): (r: seq<Notification>)
    ensures NewestFirst(r)
    ensures multiset(r) == multiset(s)
    decreases |s|
  {
    if s == [] then []
    else
      assert s == [s[0]] + s[1..];
      InsertNewestFirst(s[0], SortNewestFirst(s[1..]))
  }

  /** `NotificationViewSet.get_queryset`: exactly the requester's notifications, each
      as often as it is stored, newest first. */
  function Listing(rows: seq<Notification>, user: UserId): (r: seq<Notification>)
    ensures forall n :: n in r ==> n.user == user
    ensures forall n: Notification :: n.user == user ==> multiset(r)[n] == multiset(rows)[n]
    ensures NewestFirst(r)
  {
    var mine := OwnedBy(rows, user);
    var r := SortNewestFirst(mine);
    assert forall n :: n in r ==> n.user == user by {
      forall n | n in r ensures n.user == user {
        assert n in multiset(r);
        assert n in multiset(mine);
      }
    }
    r
  }

  /** `user_id if user_id else request.user.id`: a present, non-zero id wins. */
  function Recipient(requested: Option<nat>, requester: UserId): (u: UserId)
    ensures requested.Some? && requested.value != 0 ==> u == requested.value
    ensures requested.None? || requested.value == 0 ==> u == requester
  {
    if requested.Some? && requested.value != 0 then requested.value else requester
  }

  /** A user's first notification is their whole listing. */
  lemma ListingAfterFirstCreate(rows: seq<Notification>, n: Notification)
    requires forall i :: 0 <= i < |rows| ==> rows[i].user != n.user
    ensures Listing(rows + [n], n.user) == [n]
  {
    var all := rows + [n];
    assert all[..|all| - 1] == rows;
    assert OwnedBy(all, n.user) == [n];
    assert SortNewestFirst([n]) == InsertNewestFirst(n, SortNewestFirst([]));
  }

  /** The notification table and the queue of delivery jobs handed to the workers. */
  class Inbox {
    var rows: seq<Notification>
    var queue: seq<nat>
    var nextId: nat

    ghost predicate Valid()
      reads this
    {
      && (forall i :: 0 <= i < |rows| ==> rows[i].id < nextId)
      && UniqueIds(rows)
    }

    constructor ()
      ensures Valid() && rows == [] && queue == [] && nextId == 1
    {
      rows, queue, nextId := [], [], 1;
    }

    function Ids(): (r: seq<nat>)
      reads this
      ensures |r| == |rows|
      ensures forall i :: 0 <= i < |rows| ==> r[i] == rows[i].id
    {
      seq(|rows|, i reads this requires 0 <= i < |rows| => rows[i].id)
    }

    /** `Notification.objects.create(user=..., message=...)`: a new row, unsent unless
        the caller says otherwise. */
    method Create(user: UserId, message: string, now: nat, sent: bool) returns (n: Notification)
      requires Valid()
      modifies this
      ensures Valid()
      ensures n == Notification(old(nextId), user, message, now, sent)
      ensures forall i :: 0 <= i < |old(rows)| ==> old(rows)[i].id != n.id
      ensures rows == old(rows) + [n] && queue == old(queue) && nextId == old(nextId) + 1
    {
      n := Notification(nextId, user, message, now, sent);
      rows := rows + [n];
      nextId := nextId + 1;
    }

    /** `send_notification_email.delay(id)`: the id joins the job queue. */
    method Enqueue(id: nat)
      modifies this
      ensures queue == old(queue) + [id]
      ensures rows == old(rows) && nextId == old(nextId)
    {
      queue := queue + [id];
    }

    /** `NotificationViewSet.perform_create`: one row for the chosen recipient, with the
        `sent` flag the request carries (false when it carries none), and one delivery
        job carrying its id, whatever that flag says. */
    method PerformCreate(requested: Option<nat>, requester: UserId, message: string, now: nat, sent: bool)
      returns (n: Notification)
      requires Valid()
      modifies this
      ensures Valid()
      ensures n == Notification(old(nextId), Recipient(requested, requester), message, now, sent)
      ensures rows == old(rows) + [n]
      ensures queue == old(queue) + [n.id]
      ensures nextId == old(nextId) + 1
    {
      n := Create(Recipient(requested, requester), message, now, sent);
      Enqueue(n.id);
    }

    /** `send_notification_email`: look the notification and its user up, send, and
        mark it sent only when the send succeeded. */
    method Deliver(id: nat, directory: UserDirectory, sendSucceeds: bool) returns (d: Delivery)
      requires Valid()
      modifies this
      ensures Valid()
      ensures d == Outcome(old(rows), directory.users, Job(id, sendSucceeds))
      ensures rows == Step(old(rows), directory.users, Job(id, sendSucceeds))
      ensures queue == old(queue) && nextId == old(nextId)
    {
      if id !in Ids() {
        return NotFound;
      }
      var i := IndexOf(Ids(), id);
      var n := rows[i];
      ghost var found := Lookup(rows, id);
      assert found == Some(n) by {
        var k :| 0 <= k < |rows| && rows[k] == found.value;
        assert k == i;
      }
      var to := directory.EmailOf(n.user);
      if to.None? {
        return NotFound;
      }
      var email := Email(Subject, n.message, to.value);
      if !sendSucceeds {
        return SendFailed(email);
      }
      ghost var before := rows;
      rows := rows[i := n.(sent := true)];
      assert rows == MarkSent(before, id) by {
        forall j | 0 <= j < |rows| ensures rows[j] == MarkSent(before, id)[j] {
          if j != i { assert before[j].id != id; }
        }
      }
      d := Delivered(email);
    }
  }
}
