/** Transactional email: one quota per recipient stands before every message. */
module Mail {
  import opened Types
  import opened Counters

  datatype MailConfig = MailConfig(enabled: bool, limit: nat, window: nat)

  /**
   * One atomic call. `email` is the address Register was given, or the stored address of the account
   * ForgotPassword found; `proceeds` says that everything between the quota and the send succeeds,
   * and that the provider takes the message.
   * `Other` is any other rate-limited request.
   */
  datatype Op =
    | Register(email: string, now: Time, quota: Fault, proceeds: bool)
    | Forgot(email: string, now: Time, quota: Fault, proceeds: bool)
    | Other(call: Call)

  function QuotaKey(address: string): string
  {
    "email:" + address
  }

  /** Every recipient has a quota of its own, under the prefix of all of them. */
  lemma QuotasApart(a: string, b: string)
    ensures QuotaKey(a) == QuotaKey(b) <==> a == b
    ensures QuotaKey(a)[..6] == "email:"
  {
    assert QuotaKey(a)[6..] == a && QuotaKey(b)[6..] == b;
  }

  /** The recipient: Register normalises its input once more than ForgotPassword does. */
  function Recipient(norm: string -> string, op: Op): string
    requires !op.Other?
  {
    if op.Register? then norm(norm(op.email)) else norm(op.email)
  }

  /** The rate-limiter call the operation gets through to Redis, if any. */
  function Calls(cfg: MailConfig, norm: string -> string, op: Op): seq<Call>
  {
    if op.Other? then [op.call]
    else if cfg.enabled && op.quota.Applied()
    then [Call(QuotaKey(Recipient(norm, op)), cfg.limit, cfg.window, op.now)]
    else []
  }

  /** The operation sends a message to `address`. */
  predicate Sends(cfg: MailConfig, norm: string -> string, counts: Counts, op: Op, address: string)
  {
    && !op.Other? && cfg.enabled && op.quota.NoFault? && op.proceeds
    && Allowed(counts, Call(QuotaKey(Recipient(norm, op)), cfg.limit, cfg.window, op.now))
    && Recipient(norm, op) == address
  }

  function AfterOps(cfg: MailConfig, norm: string -> string, counts: Counts, ops: seq<Op>): Counts
    decreases |ops|
  {
    if ops == [] then counts
    else AfterOps(cfg, norm, AfterCalls(counts, Calls(cfg, norm, ops[0])), ops[1..])
  }

  function Sent(cfg: MailConfig, norm: string -> string, counts: Counts, ops: seq<Op>, address: string): nat
    decreases |ops|
  {
    if ops == [] then 0
    else
      var rest := Sent(cfg, norm, AfterCalls(counts, Calls(cfg, norm, ops[0])), ops[1..], address);
      if Sends(cfg, norm, counts, ops[0], address) then rest + 1 else rest
  }

  function AllCalls(cfg: MailConfig, norm: string -> string, ops: seq<Op>): seq<Call>
    decreases |ops|
  {
    if ops == [] then [] else Calls(cfg, norm, ops[0]) + AllCalls(cfg, norm, ops[1..])
  }

  function When(op: Op): Time
  {
    if op.Other? then op.call.now else op.now
  }

  ghost predicate Timely(ops: seq<Op>, from: Time, to: Time)
  {
    forall i | 0 <= i < |ops| :: from <= When(ops[i]) < to
  }

  /** Other requests are limited under a route scope, never under the prefix of the recipients. */
  ghost predicate ScopesApart(ops: seq<Op>)
  {
    forall i | 0 <= i < |ops| && ops[i].Other? :: !(QuotaKey("") <= ops[i].call.key)
  }

  lemma {:induction false} CallsTimely(cfg: MailConfig, norm: string -> string, ops: seq<Op>, address: string,
                                       from: Time, to: Time)
    requires Timely(ops, from, to) && ScopesApart(ops)
    ensures var calls := AllCalls(cfg, norm, ops);
            Uniform(calls, QuotaKey(address), cfg.limit, cfg.window, from, to)
    decreases |ops|
  {
    if ops != [] {
      var rest := ops[1..];
      assert Timely(rest, from, to) && ScopesApart(rest);
      CallsTimely(cfg, norm, rest, address, from, to);
      var first, calls := Calls(cfg, norm, ops[0]), AllCalls(cfg, norm, ops);
      forall i | 0 <= i < |calls| && calls[i].key == QuotaKey(address)
        ensures calls[i].limit == cfg.limit && calls[i].window == cfg.window && from <= calls[i].now < to
      {
        if i < |first| {
          assert QuotaKey("") <= QuotaKey(address);
        } else {
          assert calls[i] == AllCalls(cfg, norm, rest)[i - |first|];
        }
      }
    }
  }

  /** Each message is preceded, in its own call, by a quota granted for the same address. */
  lemma {:induction false} SentOnGrant(cfg: MailConfig, norm: string -> string, counts: Counts, ops: seq<Op>, address: string)
    ensures Sent(cfg, norm, counts, ops, address)
         <= AllowedCalls(counts, AllCalls(cfg, norm, ops), QuotaKey(address))
    decreases |ops|
  {
    if ops != [] {
      var first := Calls(cfg, norm, ops[0]);
      var rest := AllCalls(cfg, norm, ops[1..]);
      SentOnGrant(cfg, norm, AfterCalls(counts, first), ops[1..], address);
      if first == [] {
        assert first + rest == rest;
      } else {
        assert (first + rest)[0] == first[0] && (first + rest)[1..] == rest;
        assert first[1..] == [] && AfterCalls(counts, first) == AfterCall(counts, first[0]);
      }
    }
  }

  /**
   * Over all runs of Register and ForgotPassword, mixed with any other rate-limited requests: the
   * messages sent to one address in a half-open interval of length `span` number at most
   * limit * (ceil(span / W) + 1), whatever went before.
   */
  lemma SendsBounded(cfg: MailConfig, norm: string -> string, before: seq<Op>, ops: seq<Op>, address: string,
                     from: Time, span: nat)
    requires Timely(ops, from, from + span) && ScopesApart(ops)
    ensures Sent(cfg, norm, AfterOps(cfg, norm, map[], before), ops, address)
         <= cfg.limit * (CeilDiv(span, WholeSeconds(cfg.window)) + 1)
  {
    var counts := AfterOps(cfg, norm, map[], before);
    var calls := AllCalls(cfg, norm, ops);
    CallsTimely(cfg, norm, ops, address, from, from + span);
    SentOnGrant(cfg, norm, counts, ops, address);
    AllowedInSpan(counts, calls, QuotaKey(address), cfg.limit, cfg.window, from, span);
  }
}
