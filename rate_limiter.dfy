/**
 * The login rate limiters (server/src/middleware/rateLimiter.ts): the key
 * each request is counted under, and a fixed-window counter per key with the
 * configured window, limit and counting policy.
 */
module RateLimiter {
  import opened Common
  import opened Types
  import opened ErrorHandler

  /** The options both limiters are configured with. */
  datatype Policy = Policy(windowMs: nat, max: nat, skipSuccessfulRequests: bool)

  /** Fifteen minutes, in milliseconds. */
  const LoginWindowMs := 15 * 60 * 1000

  const IpLoginPolicy := Policy(LoginWindowMs, 5, false)
  const UsernameLoginPolicy := Policy(LoginWindowMs, 5, false)
  /** `loginRateLimiter` is the IP limiter under another name. */
  const LoginPolicy := IpLoginPolicy

  /** The body of a throttled response. */
  const ThrottledBody := ErrorBody(false, RateLimitExceeded)

  /** The throttled body has no error text either: it equals the body of an authentication refusal. */
  lemma ThrottledBodyIsBare()
    ensures ThrottledBody == ErrorBody(false, Undefined)
    ensures ThrottledBody == HandleError(Thrown("Error", Some(NewAppError(401, MissingAuthToken)))).body
  {
  }

  lemma PoliciesAsConfigured()
    ensures IpLoginPolicy == UsernameLoginPolicy == LoginPolicy
    ensures LoginPolicy.windowMs == 900000 && LoginPolicy.max == 5
    ensures !LoginPolicy.skipSuccessfulRequests
  {
  }

  /** The prefix that marks a key derived from a username. */
  const UsernamePrefix := "username:"

  /**
   * The key generator of the username limiter: the body's username behind a
   * prefix when it is truthy, else the client address, else `unknown`.
   */
  function UsernameKey(bodyUsername: Option<string>, ip: Option<string>): (k: string)
    ensures SomeTruthy(bodyUsername) ==> k == UsernamePrefix + bodyUsername.value
    ensures !SomeTruthy(bodyUsername) && SomeTruthy(ip) ==> k == ip.value
    ensures !SomeTruthy(bodyUsername) && !SomeTruthy(ip) ==> k == "unknown"
  {
    if !SomeTruthy(bodyUsername) then OrElse(ip, "unknown")
    else UsernamePrefix + bodyUsername.value
  }

  /** Two different usernames are always counted apart, whichever addresses they come from. */
  lemma UsernameKeysSeparate(u: string, u': string, ip: Option<string>, ip': Option<string>)
    requires u != "" && u' != ""
    ensures UsernameKey(Some(u), ip) == UsernameKey(Some(u'), ip') <==> u == u'
  {
    if UsernameKey(Some(u), ip) == UsernameKey(Some(u'), ip') {
      assert u == (UsernamePrefix + u)[|UsernamePrefix|..];
      assert u' == (UsernamePrefix + u')[|UsernamePrefix|..];
    }
  }

  /** The same username is counted under one key, whichever address it comes from. */
  lemma UsernameKeyIgnoresAddress(u: string, ip: Option<string>, ip': Option<string>)
    requires u != ""
    ensures UsernameKey(Some(u), ip) == UsernameKey(Some(u), ip')
  {
  }

  // ---------------------------------------------------------------------
  // The fixed-window counter

  /** A key's counter: the hits in its current window and when that window ends. */
  datatype Window = Window(hits: nat, resetTime: int)

  /** A hit at time `now`: a new window when none is open, else one more hit in the open one. */
  function Step(w: Option<Window>, now: int, windowMs: nat): (w': Window)
    ensures w.None? || now >= w.value.resetTime ==> w' == Window(1, now + windowMs)
    ensures w.Some? && now < w.value.resetTime ==> w' == Window(w.value.hits + 1, w.value.resetTime)
  {
    if w.None? || now >= w.value.resetTime then Window(1, now + windowMs)
    else Window(w.value.hits + 1, w.value.resetTime)
  }

  /** The counter of one key after hits at the given times. */
  function Replay(start: Option<Window>, times: seq<int>, windowMs: nat): Option<Window> {
    if times == [] then start
    else Some(Step(Replay(start, times[..|times| - 1], windowMs), times[|times| - 1], windowMs))
  }

  /** Every hit falls within one window length of the first. */
  predicate WithinFirstWindow(times: seq<int>, windowMs: nat) {
    times != [] && forall i :: 0 <= i < |times| ==> times[0] <= times[i] < times[0] + windowMs
  }

  /** Hits that all fall in the window the first one opened are counted one by one in that window. */
  lemma {:induction false} CountsWithinWindow(times: seq<int>, windowMs: nat)
    requires WithinFirstWindow(times, windowMs)
    ensures Replay(None, times, windowMs) == Some(Window(|times|, times[0] + windowMs))
  {
    if |times| > 1 {
      var prefix := times[..|times| - 1];
      assert prefix[0] == times[0];
      assert WithinFirstWindow(prefix, windowMs) by {
        forall i | 0 <= i < |prefix|
          ensures prefix[0] <= prefix[i] < prefix[0] + windowMs
        {
          assert prefix[i] == times[i];
        }
      }
      CountsWithinWindow(prefix, windowMs);
      assert times[|times| - 1] < times[0] + windowMs;
    }
  }

  /** The outcome of one request. */
  datatype Outcome = Proceed | Throttled(status: int, body: ErrorBody)

  /** A request is admitted while its window holds at most `max` hits. */
  function Decide(w: Window, max: nat): (o: Outcome)
    ensures o == Proceed <==> w.hits <= max
    ensures o != Proceed ==> o.body == ThrottledBody
  {
    if w.hits <= max then Proceed else Throttled(429, ThrottledBody)
  }

  /** Within one window a key is admitted exactly for its first five login requests. */
  lemma SixthInWindowRejected(times: seq<int>)
    requires WithinFirstWindow(times, LoginPolicy.windowMs)
    ensures var w := Replay(None, times, LoginPolicy.windowMs);
      w.Some? && (Decide(w.value, LoginPolicy.max) == Proceed <==> |times| <= 5)
  {
    CountsWithinWindow(times, LoginPolicy.windowMs);
  }

  /** Once its window has ended a key starts afresh, however many hits it had. */
  lemma WindowEndResets(w: Window, now: int)
    requires now >= w.resetTime
    ensures Decide(Step(Some(w), now, LoginPolicy.windowMs), LoginPolicy.max) == Proceed
  {
  }

  /** One limiter instance: a policy and the open window of every key seen. */
  class FixedWindowLimiter {
    const policy: Policy
    var windows: map<string, Window>

    constructor (policy: Policy)
      ensures this.policy == policy && windows == map[]
    {
      this.policy := policy;
      windows := map[];
    }

    /** The counter of `key`, if it has one. */
    function WindowOf(key: string): Option<Window>
      reads this
    {
      if key in windows then Some(windows[key]) else None
    }

    /** Counts a request under `key` at time `now` and decides it. */
    method Hit(key: string, now: int) returns (o: Outcome)
      modifies this`windows
      ensures windows == old(windows)[key := Step(old(WindowOf(key)), now, policy.windowMs)]
      ensures o == Decide(windows[key], policy.max)
    {
      var w := Step(WindowOf(key), now, policy.windowMs);
      windows := windows[key := w];
      o := Decide(w, policy.max);
    }

    /**
     * Called when the response is sent: with `skipSuccessfulRequests` a
     * successful request is taken back off its key's count; otherwise every
     * request keeps counting.
     */
    method Settle(key: string, succeeded: bool)
      modifies this`windows
      ensures !policy.skipSuccessfulRequests || !succeeded ==> windows == old(windows)
      ensures key !in old(windows) || old(windows)[key].hits == 0 ==> windows == old(windows)
      ensures policy.skipSuccessfulRequests && succeeded && key in old(windows) && old(windows)[key].hits > 0 ==>
        windows == old(windows)[key := old(windows)[key].(hits := old(windows)[key].hits - 1)]
    {
      if policy.skipSuccessfulRequests && succeeded && key in windows && windows[key].hits > 0 {
        windows := windows[key := windows[key].(hits := windows[key].hits - 1)];
      }
    }
  }
}
