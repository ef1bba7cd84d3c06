/** Notification blocks: an unordered handful on one side, three fixed slots on the other. */
module JobNotifications {
  import opened Wrappers
  import opened MapRange
  import opened Ordering
  import opened JobModel
  import opened JobCommands

  datatype Event = OnSuccess | OnFailure | OnStart

  function EventName(e: Event): string {
    match e
    case OnSuccess => "on_success"
    case OnFailure => "on_failure"
    case OnStart => "on_start"
  }

  function EventOf(kind: string): (r: Option<Event>)
    ensures r.Some? ==> EventName(r.value) == kind
  {
    if kind == "on_success" then Some(OnSuccess)
    else if kind == "on_failure" then Some(OnFailure)
    else if kind == "on_start" then Some(OnStart)
    else None
  }

  lemma EventNames(e: Event)
    ensures EventOf(EventName(e)) == Some(e)
  {
    assert "on_success"[3] != "on_failure"[3];
  }

  // ---------------------------------------------------------------- Meaning

  /** The notification that one block denotes. */
  function NotificationOf(b: NotificationBlock): Notification {
    Notification(
      if b.email == [] then None else Some(Email(b.email[0].attachLog, b.email[0].recipients, b.email[0].subject)),
      if b.webhookUrls == [] then None else Some(b.webhookUrls),
      PluginOf(b.plugin),
      if b.webhookUrls == [] then "" else b.webhookHttpMethod,
      if b.webhookUrls == [] then "" else b.webhookFormat)
  }

  /** The blocks that are accepted: at most three, of known and pairwise different types, with at
      most one plugin each. */
  predicate Acceptable(bs: seq<NotificationBlock>) {
    && |bs| <= 3
    && (forall i :: 0 <= i < |bs| ==> EventOf(bs[i].kind).Some? && |bs[i].plugin| <= 1)
    && (forall i, j :: 0 <= i < j < |bs| ==> bs[i].kind != bs[j].kind)
  }

  /** The slot that some blocks fill for an event. */
  function SlotFor(bs: seq<NotificationBlock>, e: Event): Option<Notification> {
    if bs == [] then None
    else if bs[|bs| - 1].kind == EventName(e) then Some(NotificationOf(bs[|bs| - 1]))
    else SlotFor(bs[..|bs| - 1], e)
  }

  /** What acceptable blocks denote. */
  function JobNotificationOf(bs: seq<NotificationBlock>): Option<JobNotification> {
    if bs == [] then None
    else Some(JobNotification(SlotFor(bs, OnFailure), SlotFor(bs, OnStart), SlotFor(bs, OnSuccess)))
  }

  /** `readNotification`: the block that shows a notification. */
  function ReadNotification(n: Notification, kind: string): NotificationBlock {
    NotificationBlock(kind,
                      if n.email.None? then []
                      else [EmailBlock(n.email.value.attachLog, n.email.value.recipients, n.email.value.subject)],
                      if n.webHookUrls.None? then [] else n.webHookUrls.value,
                      if n.webHookUrls.None? then "" else n.httpMethod,
                      if n.webHookUrls.None? then "" else n.format,
                      PluginBlocks(n.plugin))
  }

  function ShowSlot(n: Option<Notification>, e: Event): seq<NotificationBlock> {
    if n.None? then [] else [ReadNotification(n.value, EventName(e))]
  }

  /** The blocks that show a job's notifications: success, then failure, then start. */
  function NotificationBlocks(jn: Option<JobNotification>): seq<NotificationBlock> {
    if jn.None? then []
    else ShowSlot(jn.value.onSuccess, OnSuccess) + ShowSlot(jn.value.onFailure, OnFailure)
         + ShowSlot(jn.value.onStart, OnStart)
  }

  /** A block as it is shown again: one email at most, and method and format only beside URLs. */
  function Canonical(b: NotificationBlock): NotificationBlock {
    b.(email := if b.email == [] then [] else [b.email[0]],
       webhookHttpMethod := if b.webhookUrls == [] then "" else b.webhookHttpMethod,
       webhookFormat := if b.webhookUrls == [] then "" else b.webhookFormat)
  }

  predicate Clean(b: NotificationBlock) {
    |b.email| <= 1 && (b.webhookUrls == [] ==> b.webhookHttpMethod == "" && b.webhookFormat == "")
  }

  // ---------------------------------------------------------------- The loop over the blocks

  /** The body of the loop, up to the choice of the slot. */
  method ReadBlock(b: NotificationBlock) returns (r: Result<Notification>)
    ensures r == if |b.plugin| > 1 then Failure else Success(NotificationOf(b))
  {
    var notification := Notification(None, None, None, "", "");
    if |b.email| > 0 {
      var recipients: seq<string> := [];
      for i := 0 to |b.email[0].recipients|
        invariant recipients == b.email[0].recipients[..i]
      {
        recipients := recipients + [b.email[0].recipients[i]];
      }
      assert recipients == b.email[0].recipients;
      notification := notification.(email := Some(Email(b.email[0].attachLog, recipients, b.email[0].subject)));
    }
    if |b.webhookUrls| > 0 {
      var urls: seq<string> := [];
      for i := 0 to |b.webhookUrls|
        invariant urls == b.webhookUrls[..i]
      {
        urls := urls + [b.webhookUrls[i]];
      }
      assert urls == b.webhookUrls;
      notification := notification.(webHookUrls := Some(urls), format := b.webhookFormat,
                                    httpMethod := b.webhookHttpMethod);
    }
    if |b.plugin| > 1 {
      return Failure;
    }
    if |b.plugin| > 0 {
      var config := CopyConfig(b.plugin[0].config);
      notification := notification.(plugin := Some(Plugin(b.plugin[0].kind, config)));
    }
    return Success(notification);
  }

  function Slot(jn: JobNotification, e: Event): Option<Notification> {
    match e
    case OnSuccess => jn.onSuccess
    case OnFailure => jn.onFailure
    case OnStart => jn.onStart
  }

  function Fill(jn: JobNotification, e: Event, n: Notification): JobNotification {
    match e
    case OnSuccess => jn.(onSuccess := Some(n))
    case OnFailure => jn.(onFailure := Some(n))
    case OnStart => jn.(onStart := Some(n))
  }

  lemma {:induction false} SlotTaken(bs: seq<NotificationBlock>, e: Event)
    ensures SlotFor(bs, e).Some? <==> exists i :: 0 <= i < |bs| && bs[i].kind == EventName(e)
  {
    if bs != [] {
      SlotTaken(bs[..|bs| - 1], e);
    }
  }

  lemma SlotsGrow(bs: seq<NotificationBlock>, i: nat, e: Event, f: Event)
    requires i < |bs| && bs[i].kind == EventName(e)
    ensures SlotFor(bs[..i + 1], f) == if f == e then Some(NotificationOf(bs[i])) else SlotFor(bs[..i], f)
  {
    EventNames(e);
    EventNames(f);
    assert bs[..i + 1][..i] == bs[..i];
  }

  lemma KindTaken(bs: seq<NotificationBlock>, i: nat)
    requires i < |bs| && exists j :: 0 <= j < i && bs[..i][j].kind == bs[i].kind
    ensures !Acceptable(bs)
  {
    var j :| 0 <= j < i && bs[..i][j].kind == bs[i].kind;
    assert bs[j].kind == bs[i].kind;
  }

  lemma AcceptableNext(bs: seq<NotificationBlock>, i: nat)
    requires i < |bs| <= 3 && Acceptable(bs[..i])
    requires EventOf(bs[i].kind).Some? && |bs[i].plugin| <= 1
    requires !(exists j :: 0 <= j < i && bs[..i][j].kind == bs[i].kind)
    ensures Acceptable(bs[..i + 1])
  {
    var before, next := bs[..i], bs[..i + 1];
    forall j | 0 <= j < i + 1 ensures EventOf(next[j].kind).Some? && |next[j].plugin| <= 1 {
      assert next[j] == if j < i then before[j] else bs[i];
    }
    forall j, k | 0 <= j < k < i + 1 ensures next[j].kind != next[k].kind {
      assert next[j] == before[j] && next[k] == if k < i then before[k] else bs[i];
    }
  }

  lemma StepSlots(bs: seq<NotificationBlock>, i: nat, jn: JobNotification, event: Event)
    requires i < |bs| && bs[i].kind == EventName(event)
    requires forall e :: Slot(jn, e) == SlotFor(bs[..i], e)
    ensures forall e :: Slot(Fill(jn, event, NotificationOf(bs[i])), e) == SlotFor(bs[..i + 1], e)
  {
    forall e ensures Slot(Fill(jn, event, NotificationOf(bs[i])), e) == SlotFor(bs[..i + 1], e) {
      SlotsGrow(bs, i, event, e);
      assert Slot(jn, e) == SlotFor(bs[..i], e);
    }
  }

  /** The notification part of `jobFromResourceData`: it succeeds exactly on acceptable blocks. */
  method NotificationsFromResourceData(bs: seq<NotificationBlock>) returns (r: Result<Option<JobNotification>>)
    ensures r.Success? <==> Acceptable(bs)
    ensures r.Success? ==> r.value == JobNotificationOf(bs)
  {
    if |bs| == 0 {
      return Success(None);
    }
    if |bs| > 3 {
      return Failure;
    }
    var jobNotification := JobNotification(None, None, None);
    for i := 0 to |bs|
      invariant Acceptable(bs[..i])
      invariant forall e :: Slot(jobNotification, e) == SlotFor(bs[..i], e)
    {
      var notification :- ReadBlock(bs[i]);
      var event := EventOf(bs[i].kind);
      if event.None? {
        return Failure;
      }
      SlotTaken(bs[..i], event.value);
      if Slot(jobNotification, event.value).Some? {
        KindTaken(bs, i);
        return Failure;
      }
      AcceptableNext(bs, i);
      StepSlots(bs, i, jobNotification, event.value);
      jobNotification := Fill(jobNotification, event.value, notification);
    }
    assert bs[..|bs|] == bs;
    return Success(Some(jobNotification));
  }

  /** The notification part of `jobToResourceData`. */
  method NotificationsToResourceData(jn: Option<JobNotification>) returns (bs: seq<NotificationBlock>)
    ensures bs == NotificationBlocks(jn)
  {
    bs := [];
    if jn.Some? {
      if jn.value.onSuccess.Some? {
        bs := bs + [ReadNotification(jn.value.onSuccess.value, "on_success")];
      }
      if jn.value.onFailure.Some? {
        bs := bs + [ReadNotification(jn.value.onFailure.value, "on_failure")];
      }
      if jn.value.onStart.Some? {
        bs := bs + [ReadNotification(jn.value.onStart.value, "on_start")];
      }
    }
  }

  // ---------------------------------------------------------------- Canonical form

  lemma ShownAgain(b: NotificationBlock, e: Event)
    requires b.kind == EventName(e) && |b.plugin| <= 1
    ensures ReadNotification(NotificationOf(b), EventName(e)) == Canonical(b)
    ensures NotificationOf(Canonical(b)) == NotificationOf(b)
  {
  }

  lemma CleanIsCanonical(b: NotificationBlock)
    ensures Canonical(b) == b <==> Clean(b)
    ensures Clean(Canonical(b))
  {
    if |b.email| > 1 {
      assert |Canonical(b).email| == 1;
    }
    if |b.email| == 1 {
      assert b.email == [b.email[0]];
    }
  }

  /** The block of an event, if there is one. */
  ghost predicate BlockFor(bs: seq<NotificationBlock>, e: Event, b: NotificationBlock) {
    b in bs && b.kind == EventName(e)
  }

  lemma {:induction false} SlotIsBlock(bs: seq<NotificationBlock>, e: Event, b: NotificationBlock)
    requires Acceptable(bs) && BlockFor(bs, e, b)
    ensures SlotFor(bs, e) == Some(NotificationOf(b))
  {
    var n := |bs| - 1;
    if bs[n].kind != EventName(e) {
      assert b in bs[..n];
      SlotIsBlock(bs[..n], e, b);
    } else {
      var i :| 0 <= i < |bs| && bs[i] == b;
      assert i == n;
    }
  }

  lemma {:induction false} SlotHasBlock(bs: seq<NotificationBlock>, e: Event) returns (b: NotificationBlock)
    requires SlotFor(bs, e).Some?
    ensures BlockFor(bs, e, b)
  {
    SlotTaken(bs, e);
    var i :| 0 <= i < |bs| && bs[i].kind == EventName(e);
    b := bs[i];
  }

  lemma BlockIsShown(bs: seq<NotificationBlock>, b: NotificationBlock)
    requires Acceptable(bs) && b in bs
    ensures Canonical(b) in NotificationBlocks(JobNotificationOf(bs))
  {
    var e := EventOf(b.kind).value;
    SlotIsBlock(bs, e, b);
    ShownAgain(b, e);
    assert Canonical(b) in ShowSlot(SlotFor(bs, e), e);
  }

  lemma SlotShowsBlock(bs: seq<NotificationBlock>, e: Event) returns (b: NotificationBlock)
    requires Acceptable(bs) && SlotFor(bs, e).Some?
    ensures b in bs && Canonical(b) == ReadNotification(SlotFor(bs, e).value, EventName(e))
  {
    b := SlotHasBlock(bs, e);
    SlotIsBlock(bs, e, b);
    ShownAgain(b, e);
  }

  lemma SlotOfBlocks(bs: seq<NotificationBlock>, e: Event)
    requires bs != []
    ensures Slot(JobNotificationOf(bs).value, e) == SlotFor(bs, e)
  {
  }

  lemma ShownIsBlock(bs: seq<NotificationBlock>, jn: JobNotification, c: NotificationBlock)
      returns (b: NotificationBlock)
    requires Acceptable(bs) && JobNotificationOf(bs) == Some(jn) && c in NotificationBlocks(Some(jn))
    ensures b in bs && Canonical(b) == c
  {
    var e := ShownKind(jn, c);
    SlotOfBlocks(bs, e);
    b := SlotShowsBlock(bs, e);
  }

  lemma NoBlocksShown(c: NotificationBlock)
    ensures c !in NotificationBlocks(JobNotificationOf([]))
  {
  }

  /** Whatever the order of acceptable blocks, showing them again lists exactly their canonical forms. */
  lemma ShownBlocks(bs: seq<NotificationBlock>, c: NotificationBlock)
    requires Acceptable(bs)
    ensures c in NotificationBlocks(JobNotificationOf(bs)) <==> exists b :: b in bs && Canonical(b) == c
  {
    NoBlocksShown(c);
    match JobNotificationOf(bs)
    case None =>
    case Some(jn) =>
      if c in NotificationBlocks(Some(jn)) {
        var b := ShownIsBlock(bs, jn, c);
      }
      if b :| b in bs && Canonical(b) == c {
        BlockIsShown(bs, b);
      }
  }

  /** The notifications that a block can denote. */
  predicate Normal(n: Notification) {
    if n.webHookUrls.None? then n.httpMethod == "" && n.format == "" else n.webHookUrls.value != []
  }

  lemma ShownDenotes(n: Notification, e: Event)
    requires Normal(n)
    ensures NotificationOf(ReadNotification(n, EventName(e))) == n
  {
  }

  function Rank(b: NotificationBlock): nat {
    if b.kind == EventName(OnSuccess) then 0 else if b.kind == EventName(OnFailure) then 1 else 2
  }

  /** Success before failure before start. */
  predicate Ordered(bs: seq<NotificationBlock>) {
    forall i, j :: 0 <= i < j < |bs| ==> Rank(bs[i]) < Rank(bs[j])
  }

  lemma ShowSlotShape(n: Option<Notification>, e: Event)
    ensures |ShowSlot(n, e)| <= 1
    ensures forall b :: b in ShowSlot(n, e) ==>
                          EventOf(b.kind).Some? && |b.plugin| <= 1 &&
                          Rank(b) == match e { case OnSuccess => 0 case OnFailure => 1 case OnStart => 2 }
  {
    EventNames(e);
    EventNames(OnSuccess);
    EventNames(OnFailure);
  }

  lemma OrderedThree(a: seq<NotificationBlock>, b: seq<NotificationBlock>, c: seq<NotificationBlock>)
    requires |a| <= 1 && |b| <= 1 && |c| <= 1
    requires forall x :: x in a ==> Rank(x) == 0 && EventOf(x.kind).Some? && |x.plugin| <= 1
    requires forall x :: x in b ==> Rank(x) == 1 && EventOf(x.kind).Some? && |x.plugin| <= 1
    requires forall x :: x in c ==> Rank(x) == 2 && EventOf(x.kind).Some? && |x.plugin| <= 1
    ensures Ordered(a + b + c) && Acceptable(a + b + c)
  {
    var all := a + b + c;
    forall i | 0 <= i < |all|
      ensures EventOf(all[i].kind).Some? && |all[i].plugin| <= 1
      ensures Rank(all[i]) == if i < |a| then 0 else if i < |a| + |b| then 1 else 2
    {
      assert all[i] in if i < |a| then a else if i < |a| + |b| then b else c;
    }
    forall i, j | 0 <= i < j < |all| ensures all[i].kind != all[j].kind {
      assert Rank(all[i]) != Rank(all[j]);
    }
  }

  lemma ShownIsAcceptable(jn: JobNotification)
    ensures Acceptable(NotificationBlocks(Some(jn))) && Ordered(NotificationBlocks(Some(jn)))
  {
    ShowSlotShape(jn.onSuccess, OnSuccess);
    ShowSlotShape(jn.onFailure, OnFailure);
    ShowSlotShape(jn.onStart, OnStart);
    OrderedThree(ShowSlot(jn.onSuccess, OnSuccess), ShowSlot(jn.onFailure, OnFailure), ShowSlot(jn.onStart, OnStart));
  }

  lemma ShownKind(jn: JobNotification, b: NotificationBlock) returns (e: Event)
    requires b in NotificationBlocks(Some(jn))
    ensures Slot(jn, e).Some? && b == ReadNotification(Slot(jn, e).value, EventName(e))
  {
    if b in ShowSlot(jn.onSuccess, OnSuccess) {
      e := OnSuccess;
    } else if b in ShowSlot(jn.onFailure, OnFailure) {
      e := OnFailure;
    } else {
      assert b in ShowSlot(jn.onStart, OnStart);
      e := OnStart;
    }
  }

  /** Showing normal notifications loses nothing: every slot is read back. */
  lemma SlotOfShown(jn: JobNotification, e: Event)
    requires Slot(jn, e).Some? ==> Normal(Slot(jn, e).value)
    ensures SlotFor(NotificationBlocks(Some(jn)), e) == Slot(jn, e)
  {
    var shown := NotificationBlocks(Some(jn));
    ShownIsAcceptable(jn);
    EventNames(e);
    if Slot(jn, e).Some? {
      var b := ReadNotification(Slot(jn, e).value, EventName(e));
      assert b in ShowSlot(Slot(jn, e), e);
      assert b in shown;
      SlotIsBlock(shown, e, b);
      ShownDenotes(Slot(jn, e).value, e);
    } else if SlotFor(shown, e).Some? {
      var b := SlotHasBlock(shown, e);
      var f := ShownKind(jn, b);
      EventNames(f);
    }
  }

  lemma {:induction false} OrderedIsUnique(a: seq<NotificationBlock>, b: seq<NotificationBlock>)
    requires Ordered(a) && Ordered(b) && Elements(a) == Elements(b)
    ensures a == b
  {
    NothingToVisit(a);
    NothingToVisit(b);
    if a != [] {
      assert a[0] in Elements(b) && b[0] in Elements(a);
      assert a[0] == b[0];
      forall x ensures x in Elements(a[1..]) <==> x in Elements(b[1..]) {
        OrderedTail(a, x);
        OrderedTail(b, x);
        assert x in Elements(a) <==> x in Elements(b);
      }
      OrderedIsUnique(a[1..], b[1..]);
    }
  }

  lemma OrderedTail(a: seq<NotificationBlock>, x: NotificationBlock)
    requires Ordered(a) && a != []
    ensures x in a[1..] <==> x in a && x != a[0]
  {
    assert a == [a[0]] + a[1..];
  }

  function CanonicalAll(bs: seq<NotificationBlock>): seq<NotificationBlock> {
    seq(|bs|, i requires 0 <= i < |bs| => Canonical(bs[i]))
  }

  lemma CanonicalElements(bs: seq<NotificationBlock>, c: NotificationBlock)
    ensures c in CanonicalAll(bs) <==> exists b :: b in bs && Canonical(b) == c
  {
    if c in CanonicalAll(bs) {
      var i :| 0 <= i < |bs| && CanonicalAll(bs)[i] == c;
      assert bs[i] in bs && Canonical(bs[i]) == c;
    }
    if b :| b in bs && Canonical(b) == c {
      var i :| 0 <= i < |bs| && bs[i] == b;
      assert CanonicalAll(bs)[i] == c;
    }
  }

  lemma ShownElements(bs: seq<NotificationBlock>)
    requires Acceptable(bs)
    ensures Elements(NotificationBlocks(JobNotificationOf(bs))) == Elements(CanonicalAll(bs))
  {
    forall c
      ensures c in Elements(NotificationBlocks(JobNotificationOf(bs))) <==> c in Elements(CanonicalAll(bs))
    {
      ShownBlocks(bs, c);
      CanonicalElements(bs, c);
    }
  }

  lemma ShownInOrder(bs: seq<NotificationBlock>)
    requires Acceptable(bs)
    ensures Acceptable(NotificationBlocks(JobNotificationOf(bs))) && Ordered(NotificationBlocks(JobNotificationOf(bs)))
  {
    if bs != [] {
      ShownIsAcceptable(JobNotificationOf(bs).value);
    }
  }

  /** The blocks shown are the canonical forms of the given ones, rearranged into the fixed order. */
  lemma ShownIsPermutation(bs: seq<NotificationBlock>)
    requires Acceptable(bs)
    ensures var shown := NotificationBlocks(JobNotificationOf(bs));
            multiset(shown) == multiset(CanonicalAll(bs)) && Ordered(shown) && Acceptable(shown)
  {
    var shown := NotificationBlocks(JobNotificationOf(bs));
    ShownInOrder(bs);
    ShownElements(bs);
    forall i, j | 0 <= i < j < |bs| ensures CanonicalAll(bs)[i] != CanonicalAll(bs)[j] {
      assert bs[i].kind != bs[j].kind;
    }
    SameElementsOnce(shown, CanonicalAll(bs));
  }

  lemma AllCleanIsCanonical(bs: seq<NotificationBlock>)
    requires forall b :: b in bs ==> Clean(b)
    ensures CanonicalAll(bs) == bs
  {
    forall i | 0 <= i < |bs| ensures CanonicalAll(bs)[i] == bs[i] {
      assert bs[i] in bs;
      CleanIsCanonical(bs[i]);
    }
  }

  /** The given blocks come back, in some order, exactly when all of them are clean. */
  lemma BlocksSurviveExactly(bs: seq<NotificationBlock>)
    requires Acceptable(bs)
    ensures multiset(NotificationBlocks(JobNotificationOf(bs))) == multiset(bs) <==> forall b :: b in bs ==> Clean(b)
  {
    var shown := NotificationBlocks(JobNotificationOf(bs));
    ShownIsPermutation(bs);
    if multiset(shown) == multiset(bs) {
      forall b | b in bs ensures Clean(b) {
        assert b in multiset(shown);
        ShownBlocks(bs, b);
        var o :| o in bs && Canonical(o) == b;
        CleanIsCanonical(o);
      }
    }
    if forall b :: b in bs ==> Clean(b) {
      AllCleanIsCanonical(bs);
    }
  }

  /** They come back unchanged exactly when, besides, they already stand in the fixed order. */
  lemma BlocksUnchangedExactly(bs: seq<NotificationBlock>)
    requires Acceptable(bs)
    ensures NotificationBlocks(JobNotificationOf(bs)) == bs <==> Ordered(bs) && forall b :: b in bs ==> Clean(b)
  {
    var shown := NotificationBlocks(JobNotificationOf(bs));
    ShownIsPermutation(bs);
    BlocksSurviveExactly(bs);
    if Ordered(bs) && multiset(shown) == multiset(bs) {
      SameElements(shown, bs);
      OrderedIsUnique(shown, bs);
    }
  }

  /** Showing loses nothing of what the blocks denote: reading the shown blocks again gives the same
      notifications, and showing those again changes nothing. */
  lemma SecondPassChangesNothing(bs: seq<NotificationBlock>)
    requires Acceptable(bs)
    ensures var shown := NotificationBlocks(JobNotificationOf(bs));
            JobNotificationOf(shown) == JobNotificationOf(bs) && NotificationBlocks(JobNotificationOf(shown)) == shown
  {
    var shown := NotificationBlocks(JobNotificationOf(bs));
    ShownInOrder(bs);
    forall e ensures SlotFor(shown, e) == SlotFor(bs, e) {
      SameSlot(bs, e);
    }
    if bs != [] {
      ShownBlocks(bs, Canonical(bs[0]));
      assert bs[0] in bs;
      assert shown != [];
    }
  }

  lemma SameSlot(bs: seq<NotificationBlock>, e: Event)
    requires Acceptable(bs)
    ensures SlotFor(NotificationBlocks(JobNotificationOf(bs)), e) == SlotFor(bs, e)
  {
    var shown := NotificationBlocks(JobNotificationOf(bs));
    ShownInOrder(bs);
    if SlotFor(bs, e).Some? {
      var b := SlotHasBlock(bs, e);
      SlotIsBlock(bs, e, b);
      ShownBlocks(bs, Canonical(b));
      SlotIsBlock(shown, e, Canonical(b));
      ShownAgain(b, e);
    } else if SlotFor(shown, e).Some? {
      var c := SlotHasBlock(shown, e);
      ShownBlocks(bs, c);
      var b :| b in bs && Canonical(b) == c;
      SlotIsBlock(bs, e, b);
    }
  }
}
