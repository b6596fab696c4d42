/**
 * One `publishOne` run from claim to outcome, on the repository and the dead-letter
 * table themselves, with nothing interleaved.  (OutboxProtocol has the interleavings.)
 */
module Poller {
  import opened Wrappers
  import opened Outbox
  import OutboxProtocol
  import Retry

  /** 1 minute, 5 minutes, 30 minutes, 2 hours. */
  const RETRY_SCHEDULE_MS: seq<int> := [60_000, 300_000, 1_800_000, 7_200_000]

  /** What a dead letter says of its post; `json` serialises it. */
  datatype Payload = Payload(outboxId: nat, platform: string, accountId: Option<string>)

  method PublishOne(post: Post, schedule: seq<int>, replies: nat -> OutboxProtocol.Reply,
                    repo: OutboxRepository, dlq: Retry.DlqRepository, json: Payload -> string,
                    p: Retry.BackoffParams, random: nat -> real, landedAt: int, now: int)
    returns (published: Result<bool, OutboxError>, attempts: nat, waits: seq<int>)
    requires repo.Valid()
    modifies repo, dlq
    ensures repo.Valid() && repo.nextId == old(repo.nextId)
    // the attempts are those of `retry`, and the waits walk the schedule from its start
    ensures 1 <= attempts <= |schedule| + 1 && Retry.StopsAt(replies, |schedule| + 1, attempts)
    ensures waits == schedule[..attempts - 1]
    // exactly one outcome: published, or dead-lettered and failed
    ensures replies(attempts).Success? ==>
      && dlq.entries == old(dlq.entries)
      && Settled(MarkPublished(old(repo.rows), post.id, replies(attempts).value, now), true, old(repo.rows), repo.rows, published)
    ensures replies(attempts).Failure? ==>
      && dlq.entries == old(dlq.entries)
           + [Retry.DlqEntry(|old(dlq.entries)| + 1, post.content.platform, "outbox.publish",
                             json(Payload(post.id, post.content.platform, post.content.accountId)),
                             replies(attempts).message, attempts, landedAt)]
      && Settled(MarkFailed(old(repo.rows), post.id, replies(attempts).message, Some(attempts), now), false,
                 old(repo.rows), repo.rows, published)
  {
    var payload := json(Payload(post.id, post.content.platform, post.content.accountId));
    var outcome, sleeps := Retry.DispatchWithDlq(
      post.content.platform, "outbox.publish", payload, replies, dlq, |schedule| + 1, p, random, landedAt);
    attempts := outcome.attempts;
    Retry.DelayCount(attempts - 1, p, random);
    // the injected sleep, called once per retry, ignores the computed delay
    var retryIndex := 0;
    waits := [];
    while retryIndex < |sleeps|
      invariant retryIndex <= |sleeps| == attempts - 1
      invariant waits == schedule[..retryIndex]
    {
      waits := waits + [OutboxProtocol.Delay(schedule, retryIndex)];
      retryIndex := retryIndex + 1;
    }
    match outcome {
      case Delivered(externalId, _) =>
        var r := repo.MarkPostPublished(post.id, externalId, now);
        published := match r case Ok(_) => Ok(true) case Err(e) => Err(e);
      case DeadLettered(_, message, _) =>
        var r := repo.MarkPostFailed(post.id, message, Some(attempts), now);
        published := match r case Ok(_) => Ok(false) case Err(e) => Err(e);
    }
  }

  /** The final mark either takes, and is reported, or its error is thrown and the table stays. */
  ghost predicate Settled(marked: Result<Table, OutboxError>, ok: bool, before: Table, after: Table, r: Result<bool, OutboxError>) {
    match marked
    case Ok(t) => after == t && r == Ok(ok)
    case Err(e) => after == before && r == Err(e)
  }
}
