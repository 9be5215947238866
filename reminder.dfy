/**
 * The WhatsApp reminder collaborator. Sending is reduced to its outcome: the
 * gateway either accepts a message or raises, and the reminder function tries
 * twice before giving up. Without credentials it gives up at once.
 */
module Reminder {

  /** Whether the attempt at position `i` of the script succeeds; a missing answer is a failure. */
  function AnswerAt(answers: seq<bool>, i: nat): bool
  {
    i < |answers| && answers[i]
  }

  /** How many gateway attempts one reminder makes against the scripted answers. */
  function AttemptsFor(answers: seq<bool>): (n: nat)
    ensures 1 <= n <= 2
    ensures n == 1 <==> AnswerAt(answers, 0)
  {
    if AnswerAt(answers, 0) then 1 else 2
  }

  /** Drops the first `n` answers, or all of them when there are fewer. */
  function Consume(answers: seq<bool>, n: nat): (r: seq<bool>)
    ensures n <= |answers| ==> r == answers[n..]
    ensures n > |answers| ==> r == []
  {
    if n <= |answers| then answers[n..] else []
  }

  /** Reading past `m` consumed answers is reading `m` further into the script. */
  lemma ConsumeAnswerAt(answers: seq<bool>, m: nat, i: nat)
    ensures AnswerAt(Consume(answers, m), i) == AnswerAt(answers, m + i)
  {
  }

  lemma ConsumeConsume(answers: seq<bool>, m: nat, n: nat)
    ensures Consume(Consume(answers, m), n) == Consume(answers, m + n)
  {
  }

  /**
   * How many gateway calls are made when calls stop at the first success or
   * after `cap` calls: the position of the first success plus one, at most `cap`.
   */
  function CallsUntilSuccess(answers: seq<bool>, cap: nat): (n: nat)
    decreases cap
    ensures n <= cap && (cap > 0 ==> n > 0)
    ensures forall j :: 0 <= j < n - 1 ==> !AnswerAt(answers, j)
    ensures n < cap ==> AnswerAt(answers, n - 1)
    ensures n == cap && cap > 0 ==> (AnswerAt(answers, cap - 1) || forall j :: 0 <= j < cap ==> !AnswerAt(answers, j))
  {
    if cap == 0 then 0
    else if AnswerAt(answers, 0) then 1
    else
      var rest := CallsUntilSuccess(Consume(answers, 1), cap - 1);
      forall j | 1 <= j < cap ensures AnswerAt(answers, j) == AnswerAt(Consume(answers, 1), j - 1) {
        ConsumeAnswerAt(answers, 1, j - 1);
      }
      1 + rest
  }

  /** Two calls at a time: one reminder's calls, then, if both failed, the calls after them. */
  lemma {:induction false} CallsUntilSuccessByTwo(answers: seq<bool>, cap: nat)
    requires cap >= 2
    ensures CallsUntilSuccess(answers, cap) ==
      if AnswerAt(answers, 0) || AnswerAt(answers, 1) then AttemptsFor(answers)
      else 2 + CallsUntilSuccess(Consume(answers, 2), cap - 2)
  {
    ConsumeAnswerAt(answers, 1, 0);
    ConsumeConsume(answers, 1, 1);
  }

  /** `n` copies of `x` followed by `m` more are `n + m` copies. */
  lemma RepeatAppend(x: string, n: nat, m: nat)
    ensures seq(n, _ => x) + seq(m, _ => x) == seq(n + m, _ => x)
  {
  }

  class WhatsAppGateway {
    /** Credentials and sender number are all set. */
    const configured: bool
    /** Whether successive gateway calls succeed. */
    var answers: seq<bool>
    /** The destination number of every gateway call, in order. */
    var sent: seq<string>

    constructor(configured: bool, answers: seq<bool>)
      ensures this.configured == configured && this.answers == answers && sent == []
    {
      this.configured := configured;
      this.answers := answers;
      sent := [];
    }

    /**
     * Sends one reminder: true as soon as a gateway call succeeds, after at
     * most two calls; false without any call when unconfigured.
     */
    method SendWhatsappReminder(to: string) returns (ok: bool)
      modifies this
      ensures !configured ==> !ok && answers == old(answers) && sent == old(sent)
      ensures configured ==> ok == (AnswerAt(old(answers), 0) || AnswerAt(old(answers), 1))
      ensures configured ==> sent == old(sent) + seq(AttemptsFor(old(answers)), _ => to)
      ensures configured ==> answers == Consume(old(answers), AttemptsFor(old(answers)))
    {
      if !configured {
        return false;
      }
      var attempt := 0;
      while attempt < 2
        invariant 0 <= attempt <= 2
        invariant forall j :: 0 <= j < attempt ==> !AnswerAt(old(answers), j)
        invariant answers == Consume(old(answers), attempt)
        invariant sent == old(sent) + seq(attempt, _ => to)
      {
        var success := answers != [] && answers[0];
        if answers != [] {
          answers := answers[1..];
        }
        sent := sent + [to];
        if success {
          return true;
        }
        attempt := attempt + 1;
      }
      return false;
    }
  }
}
