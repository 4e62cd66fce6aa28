/**
 How prompt the reply to a granted claim must be: feedback never overtakes a delivery in any history
 exactly when the reply arrives in under 390 s.
 */
module ClaimTiming {
  import opened Wrappers
  import opened Accounts
  import opened Redis
  import opened System
  import opened AccountInvariants
  import opened SystemInvariants
  import opened SystemSteps
  import opened Safety
  import opened Scenario
  import W = Worker
  import Server
  import Http

  /** No delivery is under way on an account with feedback. */
  ghost predicate DeliveriesExclude(s: System.State) {
    forall id :: Delivering(PhaseOf(s, id)) ==> id !in s.redis.feedback
  }

  lemma InvExcludes(s: System.State)
    requires Inv(s)
    ensures DeliveriesExclude(s)
  {
    forall id | Delivering(PhaseOf(s, id)) ensures id !in s.redis.feedback {
      var account := FindAccount(s.run.value.stage.accounts, id).value;
      assert AcctInv(s.redis, s.now, s.history, id);
      SenderExcludesFeedback(s.redis, s.now, s.history, s.run.value.kind, account, s.run.value.stage.workers[id]);
    }
  }

  const LATE: nat := CLAIM_REPLY_MAX + 1

  /** The reply comes late, and the delivery takes as long as the retry loop allows. */
  lemma DeliveryOutlastsClaim(c: Setting, r: Redis.State, h: History, report: W.Report, token: ClaimToken)
    requires c.origin.maxReply >= LATE && c.origin.leftovers == map[]
    requires Reaches(c, Checked(c, r, h, W.HoldsClaim(report, token, 0)))
    ensures exists h' :: Reaches(c, Checked(c, r, h', W.Sending(report, token, 0, LATE)).(now := LATE + Http.DELIVERY_MAX))
  {
    ReplyComesLate(c, r, h, report, token);
    SendingBegins(c, r, h, report, token);
    Proceed(c, Checked(c, r, h, W.HoldsClaim(report, token, 0)).(now := LATE), Check(c.account.id, W.SendBegins));
    DeliveryTakesLong(c, r, NoteSettled(h, r, c.account.id), report, token);
  }

  lemma ReplyComesLate(c: Setting, r: Redis.State, h: History, report: W.Report, token: ClaimToken)
    requires c.origin.maxReply >= LATE && c.origin.leftovers == map[]
    requires Reaches(c, Checked(c, r, h, W.HoldsClaim(report, token, 0)))
    ensures Reaches(c, Checked(c, r, h, W.HoldsClaim(report, token, 0)).(now := LATE))
  {
    Proceed(c, Checked(c, r, h, W.HoldsClaim(report, token, 0)), Tick(LATE));
  }

  lemma DeliveryTakesLong(c: Setting, r: Redis.State, h: History, report: W.Report, token: ClaimToken)
    requires c.origin.leftovers == map[]
    requires Reaches(c, Checked(c, r, h, W.Sending(report, token, 0, LATE)).(now := LATE))
    ensures Reaches(c, Checked(c, r, h, W.Sending(report, token, 0, LATE)).(now := LATE + Http.DELIVERY_MAX))
  {
    Proceed(c, Checked(c, r, h, W.Sending(report, token, 0, LATE)).(now := LATE), Tick(Http.DELIVERY_MAX));
  }

  lemma SendingBegins(c: Setting, r: Redis.State, h: History, report: W.Report, token: ClaimToken)
    ensures var late := Checked(c, r, h, W.HoldsClaim(report, token, 0)).(now := LATE);
            StepCheck(late, late.run.value, c.account.id, W.SendBegins) ==
            Some(Checked(c, r, NoteSettled(h, r, c.account.id), W.Sending(report, token, 0, LATE)).(now := LATE))
  {
    var id := c.account.id;
    var late := Checked(c, r, h, W.HoldsClaim(report, token, 0)).(now := LATE);
    FindPresent([c.account], 0);
    assert late.run.value.stage.workers[id := W.Sending(report, token, 0, LATE)] == map[id := W.Sending(report, token, 0, LATE)];
    assert W.Step(r, LATE, c.kind, 0, c.account, W.HoldsClaim(report, token, 0), W.SendBegins) == Some((r, W.Sending(report, token, 0, LATE)));
  }

  /** A click on the delivered account is recorded once its claim has expired. */
  lemma FeedbackOvertakes(origin: System.State, s: System.State, id: AccountId)
    requires Leads(origin, s) && s.tasks == map[] && s.inFlight == {}
    requires GetJob(s.redis, s.now, id).Some? && !Claimed(s.redis, s.now, id) && Delivering(PhaseOf(s, id))
    ensures exists s' :: Leads(origin, s') && !DeliveriesExclude(s')
  {
    var button := Server.MarkFalsePositive;
    Go(origin, s, Click(0, id, button));
    var clicked := s.(inFlight := s.inFlight + {id}, tasks := s.tasks[0 := Server.Task(id, button, Server.WriteFeedback)]);
    assert Step(s, Click(0, id, button)) == Some(clicked);
    var sent := Server.FeedbackSent(true, true);
    Go(origin, clicked, Handle(0, sent));
    var s' := Step(clicked, Handle(0, sent)).value;
    assert PhaseOf(s', id) == PhaseOf(s, id) && id in s'.redis.feedback;
  }

  /** A history in which feedback overtakes a delivery whose claim reply took 390 s. */
  lemma LateReplyLetsFeedbackOvertake(maxReply: nat)
    requires maxReply > 389_999
    ensures exists s :: Leads(Initial(maxReply), s) && !DeliveriesExclude(s)
  {
    var account := Account(1, "someone", Some("example.org"));
    var c := Setting(account, W.PeriodicCheck, Initial(maxReply));
    var verdict := Verdict(true, "", 1.0);
    var report := W.Report(BeginRecord(None, 0), verdict, [], false);
    var pending := Pending(1, report);
    var token := ClaimToken(0, 0);
    var claimed := ClaimNotification(pending, 0, 1, token).0;
    ClassificationIsStored(c, report);
    NotificationIsClaimed(c, pending, report);
    var h :| Reaches(c, Checked(c, claimed, h, W.HoldsClaim(report, token, 0)));
    DeliveryOutlastsClaim(c, claimed, h, report, token);
    var h' :| Reaches(c, Checked(c, claimed, h', W.Sending(report, token, 0, LATE)).(now := LATE + Http.DELIVERY_MAX));
    ReachedIsLed(c, Checked(c, claimed, h', W.Sending(report, token, 0, LATE)).(now := LATE + Http.DELIVERY_MAX));
    FeedbackOvertakes(c.origin, Checked(c, claimed, h', W.Sending(report, token, 0, LATE)).(now := LATE + Http.DELIVERY_MAX), 1);
  }

  /** Notification and feedback exclude each other in every history if and only if replies are prompt. */
  lemma {:induction false} ExclusionIffPromptClaimReplies(maxReply: nat)
    ensures (forall events :: AfterWithin(events, maxReply).Some? ==> DeliveriesExclude(AfterWithin(events, maxReply).value))
       <==> maxReply <= 389_999
  {
    if maxReply <= CLAIM_REPLY_MAX {
      forall events | AfterWithin(events, maxReply).Some? ensures DeliveriesExclude(AfterWithin(events, maxReply).value) {
        PromptHistoryKeepsInv(events, maxReply);
        InvExcludes(AfterWithin(events, maxReply).value);
      }
    } else {
      LateReplyLetsFeedbackOvertake(maxReply);
      var s :| Leads(Initial(maxReply), s) && !DeliveriesExclude(s);
      var events :| Play(Initial(maxReply), events) == Some(s);
      assert AfterWithin(events, maxReply) == Some(s);
    }
  }
}
