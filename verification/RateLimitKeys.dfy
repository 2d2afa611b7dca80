/** The Redis keys of app/rate_limiter.py: requests that must be counted apart never share a counter. */
module RateLimitKeys {
  import opened Wrappers

  const DIGITS := "0123456789"

  function Decimal(n: nat): (s: string)
    ensures s != "" && (|s| == 1 <==> n < 10)
    ensures forall c :: c in s ==> c in DIGITS
  {
    if n < 10 then [DIGITS[n]] else Decimal(n / 10) + [DIGITS[n % 10]]
  }

  lemma DigitsDiffer(a: nat, b: nat)
    requires a < 10 && b < 10 && DIGITS[a] == DIGITS[b]
    ensures a == b
  {
  }

  lemma {:induction false} DecimalInjective(a: nat, b: nat)
    requires Decimal(a) == Decimal(b)
    ensures a == b
  {
    var s := Decimal(a);
    if a < 10 {
      assert s[0] == DIGITS[a] && s[0] == DIGITS[b];
      DigitsDiffer(a, b);
    } else {
      assert s[|s| - 1] == DIGITS[a % 10] && s[|s| - 1] == DIGITS[b % 10];
      DigitsDiffer(a % 10, b % 10);
      assert s[..|s| - 1] == Decimal(a / 10) && s[..|s| - 1] == Decimal(b / 10);
      DecimalInjective(a / 10, b / 10);
    }
  }

  function LoginKey(prefix: string, ipDigest: string, usernameDigest: string): string {
    prefix + ":login:ip:" + ipDigest + ":username:" + usernameDigest
  }

  function RegistrationKey(prefix: string, ipDigest: string): string {
    prefix + ":register:ip:" + ipDigest
  }

  function WriteKey(prefix: string, user: nat, scope: string, workspace: Option<nat>): string {
    var key := prefix + ":write:user:" + Decimal(user) + ":scope:" + scope;
    if workspace.Some? then key + ":workspace:" + Decimal(workspace.value) else key
  }

  /** The length of the first field. */
  function FirstColon(s: string): (n: nat)
    ensures n <= |s|
  {
    if s == "" || s[0] == ':' then 0 else 1 + FirstColon(s[1..])
  }

  /** A field without the separator is determined by the joined string. */
  lemma {:induction false} FirstField(field: string, tail: string)
    requires ':' !in field && (tail == "" || tail[0] == ':')
    ensures FirstColon(field + tail) == |field|
  {
    if field == "" {
      assert field + tail == tail;
    } else {
      assert (field + tail)[1..] == field[1..] + tail;
      FirstField(field[1..], tail);
    }
  }

  lemma SameFirstField(a: string, tailA: string, b: string, tailB: string)
    requires ':' !in a && (tailA == "" || tailA[0] == ':') && ':' !in b && (tailB == "" || tailB[0] == ':')
    requires a + tailA == b + tailB
    ensures a == b && tailA == tailB
  {
    FirstField(a, tailA);
    FirstField(b, tailB);
    assert a == (a + tailA)[..|a|] && b == (b + tailB)[..|b|];
    assert tailA == (a + tailA)[|a|..] && tailB == (b + tailB)[|b|..];
  }

  lemma SamePrefix(prefix: string, a: string, b: string)
    requires prefix + a == prefix + b
    ensures a == b
  {
    assert a == (prefix + a)[|prefix|..];
    assert b == (prefix + b)[|prefix|..];
  }

  function WorkspaceTail(workspace: Option<nat>): string {
    if workspace.Some? then ":workspace:" + Decimal(workspace.value) else ""
  }

  lemma WorkspaceTailInjective(w1: Option<nat>, w2: Option<nat>)
    requires WorkspaceTail(w1) == WorkspaceTail(w2)
    ensures w1 == w2
  {
    if w1.Some? && w2.Some? {
      SamePrefix(":workspace:", Decimal(w1.value), Decimal(w2.value));
      DecimalInjective(w1.value, w2.value);
    }
  }

  lemma Regroup(a: string, b: string, c: string)
    ensures (a + b) + c == a + (b + c)
  {
  }

  lemma WriteKeyShape(prefix: string, user: nat, scope: string, workspace: Option<nat>)
    ensures WriteKey(prefix, user, scope, workspace)
         == (prefix + ":write:user:") + (Decimal(user) + (":scope:" + (scope + WorkspaceTail(workspace))))
  {
    var head, tail := prefix + ":write:user:", WorkspaceTail(workspace);
    var key := head + Decimal(user) + ":scope:" + scope;
    assert WriteKey(prefix, user, scope, workspace) == key + tail by {
      if workspace.Some? { Regroup(key, ":workspace:", Decimal(workspace.value)); }
    }
    Regroup(head + Decimal(user) + ":scope:", scope, tail);
    Regroup(head + Decimal(user), ":scope:", scope + tail);
    Regroup(head, Decimal(user), ":scope:" + (scope + tail));
  }

  /** Write counters are separate per user, scope and workspace: the key determines all three. */
  lemma WriteKeysIsolated(prefix: string, u1: nat, s1: string, w1: Option<nat>, u2: nat, s2: string, w2: Option<nat>)
    requires ':' !in s1 && ':' !in s2
    ensures WriteKey(prefix, u1, s1, w1) == WriteKey(prefix, u2, s2, w2) <==> u1 == u2 && s1 == s2 && w1 == w2
  {
    if WriteKey(prefix, u1, s1, w1) == WriteKey(prefix, u2, s2, w2) {
      WriteKeyShape(prefix, u1, s1, w1);
      WriteKeyShape(prefix, u2, s2, w2);
      var scope1, scope2 := ":scope:" + (s1 + WorkspaceTail(w1)), ":scope:" + (s2 + WorkspaceTail(w2));
      SamePrefix(prefix + ":write:user:", Decimal(u1) + scope1, Decimal(u2) + scope2);
      NoColon(u1);
      NoColon(u2);
      SameFirstField(Decimal(u1), scope1, Decimal(u2), scope2);
      DecimalInjective(u1, u2);
      SamePrefix(":scope:", s1 + WorkspaceTail(w1), s2 + WorkspaceTail(w2));
      SameFirstField(s1, WorkspaceTail(w1), s2, WorkspaceTail(w2));
      WorkspaceTailInjective(w1, w2);
    }
  }

  lemma NoColon(n: nat)
    ensures ':' !in Decimal(n)
  {
    assert ':' !in DIGITS;
  }

  /** Login counters are separate per address and username. Hexadecimal digests contain no separator. */
  lemma LoginKeysIsolated(prefix: string, ip1: string, name1: string, ip2: string, name2: string)
    requires ':' !in ip1 && ':' !in ip2
    ensures LoginKey(prefix, ip1, name1) == LoginKey(prefix, ip2, name2) <==> ip1 == ip2 && name1 == name2
  {
    if LoginKey(prefix, ip1, name1) == LoginKey(prefix, ip2, name2) {
      LoginKeyShape(prefix, ip1, name1);
      LoginKeyShape(prefix, ip2, name2);
      var tail1, tail2 := ":username:" + name1, ":username:" + name2;
      SamePrefix(prefix + ":login:ip:", ip1 + tail1, ip2 + tail2);
      SameFirstField(ip1, tail1, ip2, tail2);
      SamePrefix(":username:", name1, name2);
    }
  }

  lemma LoginKeyShape(prefix: string, ip: string, name: string)
    ensures LoginKey(prefix, ip, name) == (prefix + ":login:ip:") + (ip + (":username:" + name))
  {
    Regroup(prefix + ":login:ip:" + ip, ":username:", name);
    Regroup(prefix + ":login:ip:", ip, ":username:" + name);
  }

  /** Registration counters are separate per address. */
  lemma RegistrationKeysIsolated(prefix: string, ip1: string, ip2: string)
    ensures RegistrationKey(prefix, ip1) == RegistrationKey(prefix, ip2) <==> ip1 == ip2
  {
    if RegistrationKey(prefix, ip1) == RegistrationKey(prefix, ip2) { SamePrefix(prefix + ":register:ip:", ip1, ip2); }
  }

  /** The formats on concrete values. */
  lemma AddressKeyFormats()
    ensures LoginKey("rl", "a1", "b2") == "rl:login:ip:a1:username:b2"
    ensures RegistrationKey("rl", "a1") == "rl:register:ip:a1"
  {
  }

  lemma WriteKeyFormat()
    ensures WriteKey("rl", 7, "s", None) == "rl:write:user:7:scope:s"
  {
    assert Decimal(7) == "7";
  }

  lemma WorkspaceKeyFormat()
    ensures WriteKey("rl", 7, "s", Some(3)) == "rl:write:user:7:scope:s:workspace:3"
  {
    WriteKeyFormat();
    assert WriteKey("rl", 7, "s", Some(3)) == WriteKey("rl", 7, "s", None) + ":workspace:" + Decimal(3);
    assert Decimal(3) == "3";
  }

  /** The constructor strips the separator from the end of the configured prefix. */
  function KeyPrefix(configured: string): (p: string)
    ensures p == "" || p[|p| - 1] != ':'
    ensures |p| <= |configured| && p == configured[..|p|]
    ensures forall k :: |p| <= k < |configured| ==> configured[k] == ':'
  {
    if configured != "" && configured[|configured| - 1] == ':' then KeyPrefix(configured[..|configured| - 1])
    else configured
  }

  /** The three kinds of requests never share a key. */
  lemma KindsIsolated(prefix: string, ip1: string, name: string, ip2: string, user: nat, scope: string,
                      workspace: Option<nat>)
    ensures LoginKey(prefix, ip1, name) != RegistrationKey(prefix, ip2)
    ensures LoginKey(prefix, ip1, name) != WriteKey(prefix, user, scope, workspace)
    ensures RegistrationKey(prefix, ip2) != WriteKey(prefix, user, scope, workspace)
  {
    var at := |prefix| + 1;
    assert LoginKey(prefix, ip1, name)[at] == 'l';
    assert RegistrationKey(prefix, ip2)[at] == 'r';
    assert WriteKey(prefix, user, scope, workspace)[at] == 'w';
  }
}
