/** The cache of runner registration tokens in the GitHub client. */
module TokenCache {
  import opened Basics

  /** Seconds a cached token must still be valid for. */
  const STARTUP_TIMEOUT := 1800

  /** The raw arguments of a request. */
  datatype Args = Args(enterprise: string, org: string, repo: string)

  /** The scope GitHub mints a token for. */
  datatype Scope = Scope(enterprise: string, owner: string, repo: string)

  /** `mintedFor` is GitHub's record of the scope. */
  datatype Token = Token(value: string, expiresAt: int, mintedFor: Scope)

  const REPO_MARK := ",repo="
  const ENTERPRISE_MARK := ",enterprise="

  function CacheKey(a: Args): string {
    "org=" + a.org + REPO_MARK + a.repo + ENTERPRISE_MARK + a.enterprise
  }

  /** strings.Split(repo, "/") has exactly two parts. */
  function SplitOwnerAndRepo(repo: string): Option<(string, string)> {
    var i := Slash(repo);
    if i == |repo| || '/' in repo[i + 1..] then None else Some((repo[..i], repo[i + 1..]))
  }

  function Slash(s: string): (i: nat)
    ensures i <= |s| && (i < |s| ==> s[i] == '/') && '/' !in s[..i]
  {
    if s == "" || s[0] == '/' then 0
    else
      assert s[..1 + Slash(s[1..])] == [s[0]] + s[1..][..Slash(s[1..])];
      1 + Slash(s[1..])
  }

  function Resolve(a: Args): Option<Scope> {
    if a.repo != "" then
      var parts := SplitOwnerAndRepo(a.repo);
      if parts.None? then None else Some(Scope("", parts.value.0, parts.value.1))
    else if a.org != "" then Some(Scope("", a.org, ""))
    else if a.enterprise != "" then Some(Scope(a.enterprise, "", ""))
    else None
  }

  /** GitHub's answer to a create-token request. */
  datatype Minted = Created(value: string, expiresAt: int) | ApiError

  /** An error may come with the outdated token that the cache still holds. */
  datatype Answer = Granted(token: Token) | Refused(stale: Option<Token>)

  predicate Fresh(t: Token, now: int) { t.expiresAt > now + STARTUP_TIMEOUT }

  type Cache = map<string, Token>

  predicate Hit(c: Cache, a: Args, now: int) {
    CacheKey(a) in c && Fresh(c[CacheKey(a)], now)
  }

  /** What minting a token every time would answer. */
  function Mint(a: Args, minted: Minted): Answer {
    var scope := Resolve(a);
    if scope.None? || minted.ApiError? then Refused(None)
    else Granted(Token(minted.value, minted.expiresAt, scope.value))
  }

  function AnswerOf(c: Cache, a: Args, now: int, minted: Minted): Answer {
    if Hit(c, a, now) then Granted(c[CacheKey(a)])
    else if Resolve(a).None? && CacheKey(a) in c then Refused(Some(c[CacheKey(a)]))
    else Mint(a, minted)
  }

  function CacheAfter(c: Cache, a: Args, now: int, minted: Minted): Cache {
    var answer := AnswerOf(c, a, now, minted);
    if answer.Granted? then c[CacheKey(a) := answer.token] else c
  }

  function Cleaned(c: Cache, now: int): Cache {
    map key | key in c && !(c[key].expiresAt < now) :: c[key]
  }

  // ---- The client ----

  class Client {
    var regTokens: Cache

    constructor ()
      ensures regTokens == map[]
    {
      regTokens := map[];
    }

    method GetRegistrationToken(a: Args, now: int, minted: Minted) returns (answer: Answer)
      modifies this
      ensures answer == AnswerOf(old(regTokens), a, now, minted)
      ensures regTokens == CacheAfter(old(regTokens), a, now, minted)
    {
      var key := CacheKey(a);
      if key in regTokens && regTokens[key].expiresAt > now + STARTUP_TIMEOUT {
        assert regTokens[key := regTokens[key]] == regTokens;
        return Granted(regTokens[key]);
      }
      var scope := Resolve(a);
      if scope.None? {
        return Refused(if key in regTokens then Some(regTokens[key]) else None);
      }
      if minted.ApiError? {
        return Refused(None);
      }
      var token := Token(minted.value, minted.expiresAt, scope.value);
      regTokens := regTokens[key := token];
      return Granted(token);
    }

    /** Deletes expired tokens, key by key in any order. */
    method Cleanup(now: int)
      modifies this
      ensures regTokens == Cleaned(old(regTokens), now)
    {
      var keys := regTokens.Keys;
      while keys != {}
        invariant keys <= old(regTokens).Keys
        invariant forall k :: k in regTokens <==>
                                k in old(regTokens) && (k in keys || !(old(regTokens)[k].expiresAt < now))
        invariant forall k :: k in regTokens ==> regTokens[k] == old(regTokens)[k]
        decreases |keys|
      {
        var key :| key in keys;
        keys := keys - {key};
        if regTokens[key].expiresAt < now {
          regTokens := regTokens - {key};
        }
      }
    }
  }

  // ---- What is asked for ----

  lemma SplitAt(owner: string, repo: string)
    requires '/' !in owner && '/' !in repo
    ensures SplitOwnerAndRepo(owner + ['/'] + repo) == Some((owner, repo))
  {
    var s := owner + ['/'] + repo;
    assert s[|owner|] == '/';
    var i := Slash(s);
    assert forall k :: 0 <= k < |owner| ==> s[k] == owner[k] && owner[k] in owner;
    assert forall k :: 0 <= k < i ==> s[k] == s[..i][k] && s[..i][k] in s[..i];
    assert i == |owner|;
    assert s[..|owner|] == owner && s[|owner| + 1..] == repo;
  }

  /** The scope of a request: of "owner/repository" with a single slash the two names, else
      the organization, else the enterprise; anything else is an error. */
  lemma {:induction false} ResolvesTo(a: Args, scope: Scope)
    ensures Resolve(a) == Some(scope) <==>
              if a.repo != "" then
                && scope.enterprise == "" && '/' !in scope.owner && '/' !in scope.repo
                && a.repo == scope.owner + ['/'] + scope.repo
              else if a.org != "" then scope == Scope("", a.org, "")
              else a.enterprise != "" && scope == Scope(a.enterprise, "", "")
  {
    if a.repo != "" {
      if Resolve(a) == Some(scope) {
        var i := Slash(a.repo);
        assert a.repo == a.repo[..i] + ['/'] + a.repo[i + 1..];
      }
      if '/' !in scope.owner && '/' !in scope.repo && a.repo == scope.owner + ['/'] + scope.repo {
        SplitAt(scope.owner, scope.repo);
      }
    }
  }

  // ---- Which requests share a key ----

  predicate OccursAt(s: string, mark: string, i: int) {
    0 <= i && i + |mark| <= |s| && s[i..i + |mark|] == mark
  }

  predicate Contains(s: string, mark: string) {
    exists i :: 0 <= i <= |s| && OccursAt(s, mark, i)
  }

  /** A mark occurs inside the name that it ends, or inside the one that it starts. */
  predicate Ambiguous(a: Args) {
    || Contains(a.org, REPO_MARK) || Contains(a.repo, REPO_MARK)
    || Contains(a.repo, ENTERPRISE_MARK) || Contains(a.enterprise, ENTERPRISE_MARK)
  }

  /** A key without its first label, and where the two marks stand in it. */
  function Names(a: Args): string { a.org + REPO_MARK + a.repo + ENTERPRISE_MARK + a.enterprise }

  function RepoAt(a: Args): nat { |a.org| }

  function EnterpriseAt(a: Args): nat { |a.org| + |REPO_MARK| + |a.repo| }

  lemma SameKeyIff(a: Args, b: Args)
    ensures CacheKey(a) == CacheKey(b) <==> Names(a) == Names(b)
  {
    assert CacheKey(a) == "org=" + Names(a) && CacheKey(b) == "org=" + Names(b);
    assert Names(a) == CacheKey(a)[4..] && Names(b) == CacheKey(b)[4..];
  }

  lemma Regroup(o: string, m: string, r: string, n: string, e: string)
    ensures o + m + (r + n + e) == o + m + r + n + e
  {
  }

  lemma MarkBetween(p: string, m: string, q: string)
    ensures OccursAt(p + m + q, m, |p|)
  {
    assert (p + m + q)[|p|..|p| + |m|] == m;
  }

  lemma MarksStand(a: Args)
    ensures OccursAt(Names(a), REPO_MARK, RepoAt(a)) && OccursAt(Names(a), ENTERPRISE_MARK, EnterpriseAt(a))
    ensures RepoAt(a) + |REPO_MARK| <= EnterpriseAt(a)
  {
    MarkBetween(a.org, REPO_MARK, a.repo + ENTERPRISE_MARK + a.enterprise);
    MarkBetween(a.org + REPO_MARK + a.repo, ENTERPRISE_MARK, a.enterprise);
    Regroup(a.org, REPO_MARK, a.repo, ENTERPRISE_MARK, a.enterprise);
  }

  /** A string with the two marks at `i` and `j` is the key of exactly one request. */
  lemma Rebuild(s: string, i: nat, j: nat)
    requires OccursAt(s, REPO_MARK, i) && OccursAt(s, ENTERPRISE_MARK, j) && i + |REPO_MARK| <= j
    ensures var b := Args(s[j + |ENTERPRISE_MARK|..], s[..i], s[i + |REPO_MARK|..j]);
            Names(b) == s && RepoAt(b) == i && EnterpriseAt(b) == j
  {
    assert s == s[..i] + s[i..i + |REPO_MARK|] + s[i + |REPO_MARK|..j]
                + s[j..j + |ENTERPRISE_MARK|] + s[j + |ENTERPRISE_MARK|..];
  }

  lemma PlacesDetermine(a: Args, b: Args)
    requires Names(a) == Names(b) && RepoAt(a) == RepoAt(b) && EnterpriseAt(a) == EnterpriseAt(b)
    ensures a == b
  {
    var s := Names(a);
    assert a.org == s[..RepoAt(a)] && b.org == s[..RepoAt(a)];
    assert a.repo == s[RepoAt(a) + |REPO_MARK|..EnterpriseAt(a)];
    assert b.repo == s[RepoAt(a) + |REPO_MARK|..EnterpriseAt(a)];
    assert a.enterprise == s[EnterpriseAt(a) + |ENTERPRISE_MARK|..];
    assert b.enterprise == s[EnterpriseAt(a) + |ENTERPRISE_MARK|..];
  }

  /** A mark: its only comma is its first character. */
  predicate IsMark(m: string) { m != "" && m[0] == ',' && forall k :: 0 < k < |m| ==> m[k] != ',' }

  lemma CharAt(s: string, m: string, i: int, k: int)
    ensures OccursAt(s, m, i) && 0 <= k < |m| ==> s[i + k] == m[k]
  {
    assert OccursAt(s, m, i) && 0 <= k < |m| ==> s[i..i + |m|][k] == m[k];
  }

  lemma MarksApart(s: string, m: string, i: int, m': string, i': int)
    requires IsMark(m) && IsMark(m') && OccursAt(s, m, i) && OccursAt(s, m', i') && i < i'
    ensures i + |m| <= i'
  {
    CharAt(s, m', i', 0);
    CharAt(s, m, i, i' - i);
  }

  lemma MarksDiffer(s: string, i: int)
    requires OccursAt(s, REPO_MARK, i)
    ensures !OccursAt(s, ENTERPRISE_MARK, i)
  {
    CharAt(s, REPO_MARK, i, 1);
    CharAt(s, ENTERPRISE_MARK, i, 1);
  }

  /** A mark that stands before, between or after the two marks of a key stands in
      the organization, the repository or the enterprise. */
  lemma MarkInOrg(a: Args, m: string, p: int)
    requires p + |m| <= RepoAt(a)
    ensures OccursAt(Names(a), m, p) <==> OccursAt(a.org, m, p)
  {
    if 0 <= p {
      assert Names(a)[p..p + |m|] == a.org[p..p + |m|];
    }
  }

  lemma MarkInRepo(a: Args, m: string, p: int)
    requires RepoAt(a) + |REPO_MARK| <= p && p + |m| <= EnterpriseAt(a)
    ensures OccursAt(Names(a), m, p) <==> OccursAt(a.repo, m, p - RepoAt(a) - |REPO_MARK|)
  {
    var q := p - RepoAt(a) - |REPO_MARK|;
    assert Names(a)[p..p + |m|] == a.repo[q..q + |m|];
  }

  lemma MarkInEnterprise(a: Args, m: string, p: int)
    requires EnterpriseAt(a) + |ENTERPRISE_MARK| <= p
    ensures OccursAt(Names(a), m, p) <==> OccursAt(a.enterprise, m, p - EnterpriseAt(a) - |ENTERPRISE_MARK|)
  {
    var q := p - EnterpriseAt(a) - |ENTERPRISE_MARK|;
    if p + |m| <= |Names(a)| {
      assert Names(a)[p..p + |m|] == a.enterprise[q..q + |m|];
    }
  }

  lemma RealMarks()
    ensures IsMark(REPO_MARK) && IsMark(ENTERPRISE_MARK)
  {
  }

  /** Any other mark stands wholly in one of the three names. */
  lemma EarlierMark(a: Args, m: string, p: int)
    requires IsMark(m) && OccursAt(Names(a), m, p) && p < RepoAt(a)
    ensures Contains(a.org, m)
  {
    RealMarks();
    MarksStand(a);
    MarksApart(Names(a), m, p, REPO_MARK, RepoAt(a));
    MarkInOrg(a, m, p);
  }

  lemma MiddleMark(a: Args, m: string, p: int)
    requires IsMark(m) && OccursAt(Names(a), m, p) && RepoAt(a) < p < EnterpriseAt(a)
    ensures Contains(a.repo, m)
  {
    RealMarks();
    MarksStand(a);
    MarksApart(Names(a), REPO_MARK, RepoAt(a), m, p);
    MarksApart(Names(a), m, p, ENTERPRISE_MARK, EnterpriseAt(a));
    MarkInRepo(a, m, p);
    assert OccursAt(a.repo, m, p - RepoAt(a) - |REPO_MARK|);
  }

  lemma LaterMark(a: Args, m: string, p: int)
    requires IsMark(m) && OccursAt(Names(a), m, p) && p > EnterpriseAt(a)
    ensures Contains(a.enterprise, m)
  {
    RealMarks();
    MarksStand(a);
    MarksApart(Names(a), ENTERPRISE_MARK, EnterpriseAt(a), m, p);
    MarkInEnterprise(a, m, p);
    assert OccursAt(a.enterprise, m, p - EnterpriseAt(a) - |ENTERPRISE_MARK|);
  }

  lemma OtherEnterpriseMark(a: Args, j: int)
    requires OccursAt(Names(a), ENTERPRISE_MARK, j) && j != EnterpriseAt(a) && j >= RepoAt(a)
    ensures Ambiguous(a)
  {
    RealMarks();
    MarksStand(a);
    if j == RepoAt(a) {
      MarksDiffer(Names(a), j);
    } else if j < EnterpriseAt(a) {
      MiddleMark(a, ENTERPRISE_MARK, j);
    } else {
      LaterMark(a, ENTERPRISE_MARK, j);
    }
  }

  lemma OtherRepoMark(a: Args, i: int)
    requires OccursAt(Names(a), REPO_MARK, i) && i != RepoAt(a) && i <= EnterpriseAt(a)
    ensures Ambiguous(a)
  {
    RealMarks();
    MarksStand(a);
    if i < RepoAt(a) {
      EarlierMark(a, REPO_MARK, i);
    } else if i < EnterpriseAt(a) {
      MiddleMark(a, REPO_MARK, i);
    } else {
      MarksDiffer(Names(a), i);
    }
  }

  lemma SharedKeyIsAmbiguous(a: Args, b: Args)
    requires a != b && Names(a) == Names(b)
    ensures Ambiguous(a)
  {
    MarksStand(b);
    if RepoAt(b) == RepoAt(a) && EnterpriseAt(b) == EnterpriseAt(a) {
      PlacesDetermine(a, b);
    } else if RepoAt(b) != RepoAt(a) && RepoAt(b) <= EnterpriseAt(a) {
      OtherRepoMark(a, RepoAt(b));
    } else {
      OtherEnterpriseMark(a, EnterpriseAt(b));
    }
  }

  /** A second place for one of the marks is a second request of the same key. */
  lemma OtherPlace(a: Args, i: nat, j: nat) returns (b: Args)
    requires OccursAt(Names(a), REPO_MARK, i) && OccursAt(Names(a), ENTERPRISE_MARK, j) && i + |REPO_MARK| <= j
    requires i != RepoAt(a) || j != EnterpriseAt(a)
    ensures b != a && Names(b) == Names(a)
  {
    var s := Names(a);
    Rebuild(s, i, j);
    b := Args(s[j + |ENTERPRISE_MARK|..], s[..i], s[i + |REPO_MARK|..j]);
  }

  lemma RepoMarkShares(a: Args, i: nat) returns (b: Args)
    requires OccursAt(Names(a), REPO_MARK, i) && i != RepoAt(a) && i + |REPO_MARK| <= EnterpriseAt(a)
    ensures b != a && Names(b) == Names(a)
  {
    MarksStand(a);
    b := OtherPlace(a, i, EnterpriseAt(a));
  }

  lemma EnterpriseMarkShares(a: Args, j: nat) returns (b: Args)
    requires OccursAt(Names(a), ENTERPRISE_MARK, j) && j != EnterpriseAt(a) && RepoAt(a) + |REPO_MARK| <= j
    ensures b != a && Names(b) == Names(a)
  {
    MarksStand(a);
    b := OtherPlace(a, RepoAt(a), j);
  }

  lemma Place(s: string, mark: string) returns (p: nat)
    requires Contains(s, mark)
    ensures OccursAt(s, mark, p) && p + |mark| <= |s|
  {
    p :| 0 <= p <= |s| && OccursAt(s, mark, p);
  }

  lemma AmbiguousIsShared(a: Args) returns (b: Args)
    requires Ambiguous(a)
    ensures b != a && Names(b) == Names(a)
  {
    var i, j := RepoAt(a) + |REPO_MARK|, EnterpriseAt(a) + |ENTERPRISE_MARK|;
    if Contains(a.org, REPO_MARK) {
      var p := Place(a.org, REPO_MARK);
      MarkInOrg(a, REPO_MARK, p);
      b := RepoMarkShares(a, p);
    } else if Contains(a.repo, REPO_MARK) {
      var p := Place(a.repo, REPO_MARK);
      MarkInRepo(a, REPO_MARK, i + p);
      b := RepoMarkShares(a, i + p);
    } else if Contains(a.repo, ENTERPRISE_MARK) {
      var p := Place(a.repo, ENTERPRISE_MARK);
      MarkInRepo(a, ENTERPRISE_MARK, i + p);
      b := EnterpriseMarkShares(a, i + p);
    } else {
      var p := Place(a.enterprise, ENTERPRISE_MARK);
      MarkInEnterprise(a, ENTERPRISE_MARK, j + p);
      b := EnterpriseMarkShares(a, j + p);
    }
  }

  /** A request shares its key with another exactly when a mark occurs in its names. */
  lemma SharesKeyIffAmbiguous(a: Args)
    ensures (exists b :: b != a && CacheKey(b) == CacheKey(a)) <==> Ambiguous(a)
  {
    if b :| b != a && CacheKey(b) == CacheKey(a) {
      SameKeyIff(a, b);
      SharedKeyIsAmbiguous(a, b);
    }
    if Ambiguous(a) {
      var b := AmbiguousIsShared(a);
      SameKeyIff(a, b);
    }
  }

  /** Names without commas are never ambiguous. */
  lemma CommaFreeIsPlain(a: Args)
    requires ',' !in a.org && ',' !in a.repo && ',' !in a.enterprise
    ensures !Ambiguous(a)
  {
    NoCommaNoMark(a.org, REPO_MARK);
    NoCommaNoMark(a.repo, REPO_MARK);
    NoCommaNoMark(a.repo, ENTERPRISE_MARK);
    NoCommaNoMark(a.enterprise, ENTERPRISE_MARK);
  }

  lemma NoCommaNoMark(s: string, m: string)
    requires IsMark(m) && ',' !in s
    ensures !Contains(s, m)
  {
    forall i ensures !OccursAt(s, m, i) {
      CharAt(s, m, i, 0);
    }
  }

  // ---- Runs ----

  datatype Event = Ask(args: Args, now: int, minted: Minted) | Clean(now: int)

  function Step(c: Cache, e: Event): Cache {
    match e
    case Ask(a, now, minted) => CacheAfter(c, a, now, minted)
    case Clean(now) => Cleaned(c, now)
  }

  /** The cache after the events. */
  function Run(c: Cache, events: seq<Event>): Cache {
    if events == [] then c else Step(Run(c, events[..|events| - 1]), events[|events| - 1])
  }

  /** The same history without any cleanup. */
  function Asks(events: seq<Event>): seq<Event> {
    if events == [] then []
    else
      var last := events[|events| - 1];
      Asks(events[..|events| - 1]) + (if last.Ask? then [last] else [])
  }

  predicate InOrder(events: seq<Event>) {
    forall i, j :: 0 <= i < j < |events| ==> events[i].now <= events[j].now
  }

  lemma {:induction false} TokenStays(c: Cache, key: string, token: Token, events: seq<Event>, now: int)
    requires key in c && c[key] == token && Fresh(token, now)
    requires forall i :: 0 <= i < |events| ==> events[i].now <= now
    ensures key in Run(c, events) && Run(c, events)[key] == token
  {
    if events != [] {
      TokenStays(c, key, token, events[..|events| - 1], now);
    }
  }

  /** A granted token is asked for once: for as long as it has more than 30 minutes left,
      whatever is asked or cleaned up in between, the same request gets it again and
      GitHub's answer is not needed. */
  lemma {:induction false} TokenIsReused(
    c: Cache, a: Args, asked: int, minted: Minted, token: Token, events: seq<Event>, now: int, minted': Minted)
    requires AnswerOf(c, a, asked, minted) == Granted(token) && token.expiresAt > now + 1800
    requires forall i :: 0 <= i < |events| ==> events[i].now <= now
    ensures AnswerOf(Run(CacheAfter(c, a, asked, minted), events), a, now, minted') == Granted(token)
  {
    TokenStays(CacheAfter(c, a, asked, minted), CacheKey(a), token, events, now);
  }

  /** A request whose names do not resolve is refused with whatever token its key still
      has; one that GitHub fails is refused without. */
  lemma {:induction false} RefusedWith(c: Cache, a: Args, now: int, minted: Minted)
    requires CacheKey(a) in c ==> c[CacheKey(a)].expiresAt <= now + 1800
    ensures Resolve(a).None? ==>
              AnswerOf(c, a, now, minted) == Refused(if CacheKey(a) in c then Some(c[CacheKey(a)]) else None)
    ensures Resolve(a).Some? && minted.ApiError? ==> AnswerOf(c, a, now, minted) == Refused(None)
  {
  }

  /** No expired token survives a cleanup, and no other is lost. */
  lemma CleanupDropsExpired(c: Cache, now: int, key: string)
    requires key in c
    ensures key in Cleaned(c, now) <==> now <= c[key].expiresAt
    ensures key in Cleaned(c, now) ==> Cleaned(c, now)[key] == c[key]
  {
  }

  /** `b` is a request under whose scope the token of this key was minted. */
  predicate MintedBy(c: Cache, key: string, b: Args)
    requires key in c
  {
    CacheKey(b) == key && Resolve(b) == Some(c[key].mintedFor)
  }

  /** Every cached token was minted for the scope of a request of its key. */
  ghost predicate Sound(c: Cache) {
    forall key :: key in c ==> exists b :: MintedBy(c, key, b)
  }

  lemma StepKeepsSound(c: Cache, e: Event)
    requires Sound(c)
    ensures Sound(Step(c, e))
  {
    var d := Step(c, e);
    forall key | key in d ensures exists b :: MintedBy(d, key, b) {
      if key in c && d[key] == c[key] {
        var b :| MintedBy(c, key, b);
        assert MintedBy(d, key, b);
      } else {
        assert MintedBy(d, key, e.args);
      }
    }
  }

  lemma {:induction false} RunIsSound(events: seq<Event>)
    ensures Sound(Run(map[], events))
  {
    if events != [] {
      RunIsSound(events[..|events| - 1]);
      StepKeepsSound(Run(map[], events[..|events| - 1]), events[|events| - 1]);
    }
  }

  lemma CachedFor(events: seq<Event>, a: Args)
    requires CacheKey(a) in Run(map[], events) && !Ambiguous(a)
    ensures Resolve(a) == Some(Run(map[], events)[CacheKey(a)].mintedFor)
  {
    RunIsSound(events);
    var c := Run(map[], events);
    var b :| MintedBy(c, CacheKey(a), b);
    if b != a {
      SameKeyIff(a, b);
      SharedKeyIsAmbiguous(a, b);
    }
  }

  /** A granted token is as good as one minted on the spot: after any history it is for
      the same scope, and it is new or valid for longer than a runner takes to start.
      Only the request itself must be unambiguous, not those before it. And an error
      never comes with a token. */
  lemma {:induction false} GrantedTokenIsRight(events: seq<Event>, a: Args, now: int, minted: Minted)
    requires !Ambiguous(a)
    ensures var answer := AnswerOf(Run(map[], events), a, now, minted);
            && (answer.Granted? ==>
                  && Resolve(a) == Some(answer.token.mintedFor)
                  && (answer == Mint(a, minted) || answer.token.expiresAt > now + 1800))
            && (answer.Refused? ==> answer.stale.None?)
  {
    if CacheKey(a) in Run(map[], events) {
      CachedFor(events, a);
    }
  }

  /** After this history the request is granted a token of another scope. */
  predicate WronglyGranted(a: Args, events: seq<Event>, now: int, minted: Minted) {
    var answer := AnswerOf(Run(map[], events), a, now, minted);
    answer.Granted? && Resolve(a) != Some(answer.token.mintedFor)
  }

  predicate Rivals(a: Args, b: Args) {
    CacheKey(a) == CacheKey(b) && Resolve(b).Some? && Resolve(b) != Resolve(a)
  }

  lemma {:induction false} RivalTakesOver(a: Args, b: Args)
    requires Rivals(a, b)
    ensures WronglyGranted(a, [Ask(b, 0, Created("token", 2 * STARTUP_TIMEOUT))], 0, ApiError)
  {
    var e := Ask(b, 0, Created("token", 2 * STARTUP_TIMEOUT));
    assert [e][..0] == [];
    assert Run(map[], [e]) == Step(map[], e);
  }

  /** The request with the marks at these places of `s`. */
  function At(s: string, i: nat, j: nat): Args
    requires i + |REPO_MARK| <= j && j + |ENTERPRISE_MARK| <= |s|
  {
    Args(s[j + |ENTERPRISE_MARK|..], s[..i], s[i + |REPO_MARK|..j])
  }

  /** Read with its marks at these places, the key is that of a request for another scope. */
  predicate RivalAt(a: Args, i: nat, j: nat) {
    var s := Names(a);
    && OccursAt(s, REPO_MARK, i) && OccursAt(s, ENTERPRISE_MARK, j) && i + |REPO_MARK| <= j
    && Resolve(At(s, i, j)).Some? && Resolve(At(s, i, j)) != Resolve(a)
  }

  /** Some two places of the marks in the key make a request for another scope. */
  predicate Contested(a: Args) {
    exists i: nat, j: nat :: i <= |Names(a)| && j <= |Names(a)| && RivalAt(a, i, j)
  }

  lemma RivalHasPlace(a: Args, b: Args)
    requires Rivals(a, b)
    ensures RivalAt(a, RepoAt(b), EnterpriseAt(b)) && RepoAt(b) <= |Names(a)| && EnterpriseAt(b) <= |Names(a)|
  {
    SameKeyIff(a, b);
    MarksStand(b);
    Rebuild(Names(a), RepoAt(b), EnterpriseAt(b));
    PlacesDetermine(b, At(Names(a), RepoAt(b), EnterpriseAt(b)));
  }

  lemma PlaceMakesRival(a: Args, i: nat, j: nat)
    requires RivalAt(a, i, j)
    ensures Rivals(a, At(Names(a), i, j))
  {
    Rebuild(Names(a), i, j);
    SameKeyIff(a, At(Names(a), i, j));
  }

  lemma {:induction false} RivalOf(a: Args, events: seq<Event>, now: int, minted: Minted) returns (b: Args)
    requires WronglyGranted(a, events, now, minted)
    ensures Rivals(a, b)
  {
    var c := Run(map[], events);
    RunIsSound(events);
    b :| MintedBy(c, CacheKey(a), b);
  }

  lemma RivalOfContested(a: Args) returns (b: Args)
    requires Contested(a)
    ensures Rivals(a, b)
  {
    var i: nat, j: nat :| i <= |Names(a)| && j <= |Names(a)| && RivalAt(a, i, j);
    PlaceMakesRival(a, i, j);
    b := At(Names(a), i, j);
  }

  /** A request can be granted a token of another scope exactly when its key, read with
      the marks at some two of their places, is that of a request for another scope. */
  lemma {:induction false} WronglyGrantedIff(a: Args)
    ensures (exists events, now, minted :: WronglyGranted(a, events, now, minted)) <==> Contested(a)
  {
    if events, now, minted :| WronglyGranted(a, events, now, minted) {
      var b := RivalOf(a, events, now, minted);
      RivalHasPlace(a, b);
    }
    if Contested(a) {
      var b := RivalOfContested(a);
      RivalTakesOver(a, b);
    }
  }

  lemma RepoMarkMoves(e: string, o: string, r: string, u: string)
    ensures CacheKey(Args(e, o, r + REPO_MARK + u)) == CacheKey(Args(e, o + REPO_MARK + r, u))
  {
    assert "org=" + o + REPO_MARK + (r + REPO_MARK + u) == "org=" + (o + REPO_MARK + r) + REPO_MARK + u;
  }

  /** Such a pair: organization "o,repo=r" with repository "u/v", and organization "o"
      with repository "r,repo=u/v". */
  lemma {:induction false} RepoMarkInOrganization()
    ensures var a, b := Args("", "o", "r" + REPO_MARK + "u/v"), Args("", "o" + REPO_MARK + "r", "u/v");
            Rivals(a, b) && WronglyGranted(a, [Ask(b, 0, Created("token", 2 * STARTUP_TIMEOUT))], 0, ApiError)
  {
    var a, b := Args("", "o", "r" + REPO_MARK + "u/v"), Args("", "o" + REPO_MARK + "r", "u/v");
    RepoMarkMoves("", "o", "r", "u/v");
    MarkedOwner();
    RivalTakesOver(a, b);
  }

  lemma {:induction false} MarkedOwner()
    ensures Resolve(Args("", "o", "r" + REPO_MARK + "u/v")) == Some(Scope("", "r" + REPO_MARK + "u", "v"))
    ensures Resolve(Args("", "o" + REPO_MARK + "r", "u/v")) == Some(Scope("", "u", "v"))
    ensures "r" + REPO_MARK + "u" != "u"
  {
    var owner := "r" + REPO_MARK + "u";
    SplitAt(owner, "v");
    SplitAt("u", "v");
    assert "r" + REPO_MARK + "u/v" == owner + ['/'] + "v" && "u/v" == "u" + ['/'] + "v";
    assert |owner| != |"u"|;
  }

  /** Two caches that give the same hits from time `now` on. */
  ghost predicate SameHits(c: Cache, d: Cache, now: int) {
    forall key :: (key in c && Fresh(c[key], now) <==> key in d && Fresh(d[key], now))
                  && (key in c && Fresh(c[key], now) ==> c[key] == d[key])
  }

  lemma SameHitsLater(c: Cache, d: Cache, now: int, later: int)
    requires SameHits(c, d, now) && now <= later
    ensures SameHits(c, d, later)
  {
  }

  lemma SameHitsTransitive(b: Cache, c: Cache, d: Cache, now: int)
    requires SameHits(b, c, now) && SameHits(c, d, now)
    ensures SameHits(b, d, now)
  {
  }

  lemma CleanKeepsHits(c: Cache, now: int)
    ensures SameHits(Cleaned(c, now), c, now)
  {
  }

  /** The same token or none; only what comes with an error may differ. */
  predicate SameOutcome(x: Answer, y: Answer) { x == y || (x.Refused? && y.Refused?) }

  lemma AskKeepsHits(c: Cache, d: Cache, e: Event)
    requires SameHits(c, d, e.now) && e.Ask?
    ensures SameOutcome(AnswerOf(c, e.args, e.now, e.minted), AnswerOf(d, e.args, e.now, e.minted))
    ensures SameHits(Step(c, e), Step(d, e), e.now)
  {
    var key := CacheKey(e.args);
    assert key in c && Fresh(c[key], e.now) <==> key in d && Fresh(d[key], e.now);
  }

  lemma {:induction false} CleanupChangesNoHit(c: Cache, events: seq<Event>, now: int)
    requires InOrder(events) && forall i :: 0 <= i < |events| ==> events[i].now <= now
    ensures SameHits(Run(c, events), Run(c, Asks(events)), now)
  {
    if events != [] {
      var before, last := events[..|events| - 1], events[|events| - 1];
      CleanupChangesNoHit(c, before, last.now);
      if last.Ask? {
        assert Asks(events)[..|Asks(events)| - 1] == Asks(before);
        AskKeepsHits(Run(c, before), Run(c, Asks(before)), last);
      } else {
        assert Asks(events) == Asks(before);
        CleanKeepsHits(Run(c, before), last.now);
        SameHitsTransitive(Run(c, events), Run(c, before), Run(c, Asks(before)), last.now);
      }
      SameHitsLater(Run(c, events), Run(c, Asks(events)), last.now, now);
    }
  }

  /** Cleanup is unobservable: after any history a request is answered as if no
      cleanup had ever run, up to the token that may come with an error. */
  lemma {:induction false} CleanupIsUnobservable(c: Cache, events: seq<Event>, a: Args, now: int, minted: Minted)
    requires InOrder(events) && forall i :: 0 <= i < |events| ==> events[i].now <= now
    ensures SameOutcome(AnswerOf(Run(c, events), a, now, minted), AnswerOf(Run(c, Asks(events)), a, now, minted))
  {
    CleanupChangesNoHit(c, events, now);
    AskKeepsHits(Run(c, events), Run(c, Asks(events)), Ask(a, now, minted));
  }

  /** From an empty cache an unambiguous request is answered exactly the same. */
  lemma {:induction false} CleanupChangesNoAnswer(events: seq<Event>, a: Args, now: int, minted: Minted)
    requires InOrder(events) && !Ambiguous(a) && forall i :: 0 <= i < |events| ==> events[i].now <= now
    ensures AnswerOf(Run(map[], events), a, now, minted) == AnswerOf(Run(map[], Asks(events)), a, now, minted)
  {
    CleanupIsUnobservable(map[], events, a, now, minted);
    GrantedTokenIsRight(events, a, now, minted);
    GrantedTokenIsRight(Asks(events), a, now, minted);
  }
}
