/** The sender / unread filter of the mail checker (internal/mail/filter.go).
    A message is reduced to what the filter looks at: the address strings of
    its `From` envelope entries, in order, and its IMAP flags. */
module Mail {
  import opened Strings
  import opened Wrappers
  import Config

  /** IMAP's system flag for a message that has been read. */
  const SeenFlag: string := "\\Seen"

  datatype Message = Message(from: seq<string>, flags: seq<string>)

  datatype DomainFilter = DomainFilter(allowedDomains: seq<string>, unreadOnly: bool)

  function NewDomainFilter(domains: seq<string>, unreadOnly: bool): (f: DomainFilter)
    ensures f.allowedDomains == domains && f.unreadOnly == unreadOnly
  {
    DomainFilter(domains, unreadOnly)
  }

  // ---------------------------------------------------------------------
  // Specification
  // ---------------------------------------------------------------------

  /** The test applied to one allowed domain: the lower-cased address ends
      with '@' followed by the lower-cased domain. */
  predicate MatchesDomain(email: string, domain: string) {
    HasSuffix(ToLower(email), "@" + ToLower(domain))
  }

  predicate AllowedDomain(domains: seq<string>, email: string) {
    exists i :: 0 <= i < |domains| && MatchesDomain(email, domains[i])
  }

  predicate HasSeen(flags: seq<string>) {
    SeenFlag in flags
  }

  /** The decision FilterMessages takes for one message. Only the first
      sender is ever consulted. */
  predicate Keep(f: DomainFilter, m: Message) {
    && |m.from| > 0
    && AllowedDomain(f.allowedDomains, m.from[0])
    && !(f.unreadOnly && HasSeen(m.flags))
  }

  /** The stable filter of `ms` by Keep. */
  function Filtered(f: DomainFilter, ms: seq<Message>): seq<Message>
    decreases |ms|
  {
    if ms == [] then []
    else
      var last := ms[|ms| - 1];
      Filtered(f, ms[..|ms| - 1]) + (if Keep(f, last) then [last] else [])
  }

  /** `xs` is obtained from `ys` by deleting elements, keeping the order of
      the rest. */
  ghost predicate IsSubsequence<T>(xs: seq<T>, ys: seq<T>)
    decreases |ys|
  {
    if ys == [] then xs == []
    else
      || (xs != [] && xs[|xs| - 1] == ys[|ys| - 1] && IsSubsequence(xs[..|xs| - 1], ys[..|ys| - 1]))
      || IsSubsequence(xs, ys[..|ys| - 1])
  }

  // ---------------------------------------------------------------------
  // The operations
  // ---------------------------------------------------------------------

  /** isAllowedDomain: scans the allow-list and returns at the first match. */
  method IsAllowedDomain(f: DomainFilter, email: string) returns (allowed: bool)
    ensures allowed <==> AllowedDomain(f.allowedDomains, email)
  {
    for i := 0 to |f.allowedDomains|
      invariant forall k :: 0 <= k < i ==> !MatchesDomain(email, f.allowedDomains[k])
    {
      if HasSuffix(ToLower(email), "@" + ToLower(f.allowedDomains[i])) {
        return true;
      }
    }
    return false;
  }

  /** FilterMessages: one pass over the input, appending each kept message. */
  method FilterMessages(f: DomainFilter, messages: seq<Message>) returns (filtered: seq<Message>)
    ensures filtered == Filtered(f, messages)
  {
    filtered := [];
    for i := 0 to |messages|
      invariant filtered == Filtered(f, messages[..i])
    {
      assert messages[..i + 1][..i] == messages[..i];
      var msg := messages[i];
      if |msg.from| == 0 {
        continue;
      }

      var senderAddress := msg.from[0];
      var allowed := IsAllowedDomain(f, senderAddress);
      if !allowed {
        continue;
      }

      if f.unreadOnly {
        var isRead := false;
        for j := 0 to |msg.flags|
          invariant !isRead && SeenFlag !in msg.flags[..j]
        {
          if msg.flags[j] == SeenFlag {
            isRead := true;
            break;
          }
        }
        assert isRead <==> HasSeen(msg.flags);
        if isRead {
          continue;
        }
      }

      filtered := filtered + [msg];
    }
    assert messages[..|messages|] == messages;
  }

  // ---------------------------------------------------------------------
  // Properties of the allow-list test
  // ---------------------------------------------------------------------

  /** On plain sequences: when the text after the last '@' of `s` is `h`,
      `s` ends with '@' + `d` (for a `d` without '@') exactly when `d` is `h`. */
  lemma SuffixAfterAt(p: string, h: string, d: string)
    requires '@' !in h && '@' !in d
    ensures HasSuffix(p + "@" + h, "@" + d) <==> h == d
  {
    var s := p + "@" + h;
    var n := |s|;
    var k := |d| + 1;
    if HasSuffix(s, "@" + d) {
      assert s[n - k..] == "@" + d;
      assert s[n - k] == '@';
      assert forall i :: n - k + 1 <= i < n ==> s[i] == d[i - (n - k + 1)] != '@';
      assert forall i :: n - |h| <= i < n ==> s[i] == h[i - (n - |h|)] != '@';
      assert s[n - |h| - 1] == '@';
      if k != |h| + 1 {
        assert false;
      }
      assert s[n - k + 1..] == h;
    }
    if h == d {
      assert s[n - k..] == "@" + d;
    }
  }

  /** For any local part, when neither the text after the last '@' nor the
      allow-list entry contains an '@', the suffix test is exact,
      case-insensitive equality of that text with the entry: no subdomain
      and no look-alike prefix matches. */
  lemma DomainPartMatch(local: string, host: string, domain: string)
    requires '@' !in host && '@' !in domain
    ensures MatchesDomain(local + "@" + host, domain) <==> ToLower(host) == ToLower(domain)
  {
    ToLowerConcat(local + "@", host);
    ToLowerConcat(local, "@");
    assert ToLower("@") == "@";
    ToLowerKeepsAt(host);
    ToLowerKeepsAt(domain);
    assert ToLower(local + "@" + host) == ToLower(local) + "@" + ToLower(host);
    SuffixAfterAt(ToLower(local), ToLower(host), ToLower(domain));
  }

  /** The same, for an allow-list of one entry. */
  lemma SingleDomainAllowList(local: string, host: string, domain: string)
    requires '@' !in host && '@' !in domain
    ensures AllowedDomain([domain], local + "@" + host) <==> ToLower(host) == ToLower(domain)
  {
    DomainPartMatch(local, host, domain);
    assert [domain][0] == domain;
  }

  /** The suffix test itself: an address that ends in '@' followed by the
      entry always matches it, whatever the entry holds. With an entry that
      contains an '@' this accepts an address with two of them, such as
      a@b@example.com for the entry b@example.com. */
  lemma EntryWithAtMatches(local: string, entry: string)
    ensures MatchesDomain(local + "@" + entry, entry)
  {
    ToLowerConcat(local + "@", entry);
    var L := ToLower(local + "@" + entry);
    var S := "@" + ToLower(entry);
    ToLowerConcat(local, "@");
    assert ToLower("@") == "@";
    assert L == ToLower(local) + S;
    assert L[|L| - |S|..] == S;
  }

  /** user@Example.com is accepted by the allow-list entry example.com,
      whatever the local part. */
  lemma MixedCaseDomainMatches(local: string)
    ensures AllowedDomain(["example.com"], local + "@Example.com")
  {
    assert local + "@Example.com" == local + "@" + "Example.com";
    SingleDomainAllowList(local, "Example.com", "example.com");
    MixedCaseLowered();
  }

  /** A look-alike domain that merely ends in the allowed one is rejected. */
  lemma LookAlikeDomainRejected(local: string)
    ensures !AllowedDomain(["example.com"], local + "@evilexample.com")
  {
    assert local + "@evilexample.com" == local + "@" + "evilexample.com";
    SingleDomainAllowList(local, "evilexample.com", "example.com");
  }

  /** A subdomain of an allowed domain is rejected. */
  lemma SubdomainRejected(local: string)
    ensures !AllowedDomain(["example.com"], local + "@sub.example.com")
  {
    assert local + "@sub.example.com" == local + "@" + "sub.example.com";
    SingleDomainAllowList(local, "sub.example.com", "example.com");
  }

  lemma MixedCaseLowered()
    ensures ToLower("Example.com") == ToLower("example.com")
  {
  }

  lemma EmptyAllowListAllowsNothing(email: string)
    ensures !AllowedDomain([], email)
  {
  }

  // ---------------------------------------------------------------------
  // Properties of the per-message decision
  // ---------------------------------------------------------------------

  /** Only From[0] is consulted: later senders never matter. */
  lemma OnlyFirstSenderConsulted(f: DomainFilter, m: Message, rest: seq<string>)
    requires |m.from| > 0
    ensures Keep(f, m) <==> Keep(f, m.(from := [m.from[0]] + rest))
  {
  }

  /** A disallowed first sender drops the message although the second
      sender's domain is on the allow-list. */
  lemma LaterAllowedSenderIgnored(a: string, b: string, flags: seq<string>, unreadOnly: bool)
    ensures AllowedDomain(["example.com"], b + "@example.com")
    ensures Filtered(DomainFilter(["example.com"], unreadOnly),
                     [Message([a + "@evil.org", b + "@example.com"], flags)]) == []
  {
    assert a + "@evil.org" == a + "@" + "evil.org";
    assert b + "@example.com" == b + "@" + "example.com";
    SingleDomainAllowList(a, "evil.org", "example.com");
    SingleDomainAllowList(b, "example.com", "example.com");
    var m := Message([a + "@evil.org", b + "@example.com"], flags);
    assert !Keep(DomainFilter(["example.com"], unreadOnly), m);
    assert [m][..0] == [];
  }

  /** With unreadOnly off the flags have no effect on the decision. */
  lemma FlagsIgnoredWhenNotUnreadOnly(f: DomainFilter, m: Message, flags: seq<string>)
    requires !f.unreadOnly
    ensures Keep(f, m) <==> Keep(f, m.(flags := flags))
  {
  }

  // ---------------------------------------------------------------------
  // Properties of the filter over a list
  // ---------------------------------------------------------------------

  lemma {:induction false} FilteredConcat(f: DomainFilter, a: seq<Message>, b: seq<Message>)
    ensures Filtered(f, a + b) == Filtered(f, a) + Filtered(f, b)
    decreases |b|
  {
    if b == [] {
      assert a + b == a;
    } else {
      var b' := b[..|b| - 1];
      assert (a + b)[..|a + b| - 1] == a + b';
      FilteredConcat(f, a, b');
    }
  }

  /** What is kept is exactly what passes Keep (soundness and completeness). */
  lemma {:induction false} FilteredMembership(f: DomainFilter, ms: seq<Message>, m: Message)
    ensures m in Filtered(f, ms) <==> m in ms && Keep(f, m)
    decreases |ms|
  {
    if ms != [] {
      var init := ms[..|ms| - 1];
      FilteredMembership(f, init, m);
      assert ms == init + [ms[|ms| - 1]];
    }
  }

  /** Every kept message is kept as often as it occurs; a dropped one never
      appears. */
  lemma {:induction false} FilteredCount(f: DomainFilter, ms: seq<Message>, m: Message)
    ensures multiset(Filtered(f, ms))[m] == if Keep(f, m) then multiset(ms)[m] else 0
    decreases |ms|
  {
    if ms != [] {
      var init := ms[..|ms| - 1];
      FilteredCount(f, init, m);
      assert ms == init + [ms[|ms| - 1]];
    }
  }

  /** Nothing is added or reordered: the output is a subsequence of the input. */
  lemma {:induction false} FilteredIsSubsequence(f: DomainFilter, ms: seq<Message>)
    ensures IsSubsequence(Filtered(f, ms), ms)
    decreases |ms|
  {
    if ms != [] {
      var init := ms[..|ms| - 1];
      var last := ms[|ms| - 1];
      FilteredIsSubsequence(f, init);
      var r := Filtered(f, ms);
      if Keep(f, last) {
        assert r == Filtered(f, init) + [last];
        assert r[..|r| - 1] == Filtered(f, init);
      } else {
        assert r == Filtered(f, init) + [];
        assert r == Filtered(f, init);
      }
    }
  }

  lemma {:induction false} SubsequenceCount<T>(xs: seq<T>, ys: seq<T>, x: T)
    requires IsSubsequence(xs, ys)
    ensures multiset(xs)[x] <= multiset(ys)[x]
    decreases |ys|
  {
    if ys != [] {
      var ys' := ys[..|ys| - 1];
      assert ys == ys' + [ys[|ys| - 1]];
      if xs != [] && xs[|xs| - 1] == ys[|ys| - 1] && IsSubsequence(xs[..|xs| - 1], ys') {
        SubsequenceCount(xs[..|xs| - 1], ys', x);
        assert xs == xs[..|xs| - 1] + [xs[|xs| - 1]];
      } else {
        SubsequenceCount(xs, ys', x);
      }
    }
  }

  /** Filtered is the only subsequence of the input that keeps every
      occurrence of an accepted message and no rejected one, so the
      properties above determine FilterMessages completely. */
  lemma {:induction false} FilteredUnique(f: DomainFilter, ms: seq<Message>, xs: seq<Message>)
    requires IsSubsequence(xs, ms)
    requires forall m :: multiset(xs)[m] == if Keep(f, m) then multiset(ms)[m] else 0
    ensures xs == Filtered(f, ms)
    decreases |ms|
  {
    if ms != [] {
      var init := ms[..|ms| - 1];
      var last := ms[|ms| - 1];
      assert ms == init + [last];
      if xs != [] && xs[|xs| - 1] == last && IsSubsequence(xs[..|xs| - 1], init) {
        var xs' := xs[..|xs| - 1];
        assert xs == xs' + [last];
        if Keep(f, last) {
          forall m ensures multiset(xs')[m] == if Keep(f, m) then multiset(init)[m] else 0 {
            assert multiset(xs)[m] == multiset(xs')[m] + multiset([last])[m];
          }
          FilteredUnique(f, init, xs');
        } else {
          assert false;
        }
      } else {
        assert IsSubsequence(xs, init);
        if Keep(f, last) {
          SubsequenceCount(xs, init, last);
          assert false;
        } else {
          forall m ensures multiset(xs)[m] == if Keep(f, m) then multiset(init)[m] else 0 {
            if m != last {
              assert multiset(ms)[m] == multiset(init)[m];
            }
          }
          FilteredUnique(f, init, xs);
        }
      }
    }
  }

  /** Filtering an already filtered batch with the same filter changes nothing. */
  lemma {:induction false} FilteredIdempotent(f: DomainFilter, ms: seq<Message>)
    ensures Filtered(f, Filtered(f, ms)) == Filtered(f, ms)
    decreases |ms|
  {
    if ms != [] {
      var init := ms[..|ms| - 1];
      var last := ms[|ms| - 1];
      FilteredIdempotent(f, init);
      var tail := if Keep(f, last) then [last] else [];
      FilteredConcat(f, Filtered(f, init), tail);
      if Keep(f, last) {
        assert [last][..0] == [];
      }
    }
  }

  /** A message with no sender never appears in the output. */
  lemma NoSenderDropped(f: DomainFilter, ms: seq<Message>, m: Message)
    requires m.from == []
    ensures m !in Filtered(f, ms)
  {
    FilteredMembership(f, ms, m);
  }

  /** With unreadOnly set, no kept message carries the \Seen flag. */
  lemma UnreadOnlyDropsSeen(f: DomainFilter, ms: seq<Message>)
    requires f.unreadOnly
    ensures forall m :: m in Filtered(f, ms) ==> !HasSeen(m.flags)
  {
    forall m | m in Filtered(f, ms) ensures !HasSeen(m.flags) {
      FilteredMembership(f, ms, m);
    }
  }

  /** An empty allow-list rejects every message. */
  lemma EmptyAllowListFiltersAll(f: DomainFilter, ms: seq<Message>)
    requires f.allowedDomains == []
    ensures Filtered(f, ms) == []
  {
    if Filtered(f, ms) != [] {
      FilteredMembership(f, ms, Filtered(f, ms)[0]);
    }
  }

  function ClearFlags(ms: seq<Message>): (r: seq<Message>)
    ensures |r| == |ms|
    ensures forall i :: 0 <= i < |ms| ==> r[i] == ms[i].(flags := [])
  {
    seq(|ms|, i requires 0 <= i < |ms| => ms[i].(flags := []))
  }

  /** With unreadOnly off, dropping every flag before or after filtering gives
      the same batch: the flags do not influence which messages are kept. */
  lemma {:induction false} FlagsIrrelevantWhenNotUnreadOnly(f: DomainFilter, ms: seq<Message>)
    requires !f.unreadOnly
    ensures Filtered(f, ClearFlags(ms)) == ClearFlags(Filtered(f, ms))
    decreases |ms|
  {
    if ms != [] {
      var init := ms[..|ms| - 1];
      var last := ms[|ms| - 1];
      FlagsIrrelevantWhenNotUnreadOnly(f, init);
      assert ClearFlags(ms)[..|ms| - 1] == ClearFlags(init);
      var tail := if Keep(f, last) then [last] else [];
      assert ClearFlags(Filtered(f, init) + tail) == ClearFlags(Filtered(f, init)) + ClearFlags(tail);
    }
  }

  // ---------------------------------------------------------------------
  // The filter as the mail check builds it
  // ---------------------------------------------------------------------

  /** The mail check builds its filter from the configured allow-list with
      unreadOnly set. When the configuration came from the environment
      alone, that list is empty, so every fetched message is dropped. */
  lemma EnvOnlyConfigForwardsNothing(unmarshal: (seq<bv8>, Config.Config) -> Config.Decoded,
                                     env: Config.Environment, parseInt: string -> Option<int>,
                                     parseDuration: string -> Option<Config.Duration>, ms: seq<Message>)
    ensures var app := Config.LoadOutcome(Config.ZeroConfig, None, unmarshal, env, parseInt, parseDuration).app;
            Filtered(NewDomainFilter(app.mail.allowedDomains, true), ms) == []
  {
    var app := Config.LoadOutcome(Config.ZeroConfig, None, unmarshal, env, parseInt, parseDuration).app;
    Config.EnvOnlyAllowListEmpty(unmarshal, env, parseInt, parseDuration);
    EmptyAllowListFiltersAll(NewDomainFilter(app.mail.allowedDomains, true), ms);
  }
}
