/** How a webhook event finds the autoscalers to scale: an index of string keys on
    one side, keys computed from the event on the other. */
module ScaleTargets {
  import opened Basics
  import opened StableOrder
  import opened RunnerGroups

  const ENTERPRISES := "enterprises"

  predicate SlashFree(s: string) { '/' !in s }

  // ---- Keys ----

  /** What an index key says, before it is rendered as a string. */
  datatype Key =
    | RepositoryKey(owner: string, repo: string)
    | OrganizationKey(org: string)
    | OrganizationGroupKey(org: string, group: string)
    | EnterpriseKey(enterprise: string)
    | EnterpriseGroupKey(enterprise: string, group: string)

  function Join(a: string, b: string): string { a + ['/'] + b }

  function Render(k: Key): string {
    match k
    case RepositoryKey(o, r) => Join(o, r)
    case OrganizationKey(o) => o
    case OrganizationGroupKey(o, g) => Join(o, Join("group", g))
    case EnterpriseKey(e) => Join(ENTERPRISES, e)
    case EnterpriseGroupKey(e, g) => Join(ENTERPRISES, Join(e, Join("group", g)))
  }

  /** Names without slashes. Groups are free text. */
  predicate SlashFreeKey(k: Key) {
    match k
    case RepositoryKey(o, r) => SlashFree(o) && SlashFree(r)
    case OrganizationKey(o) => SlashFree(o)
    case OrganizationGroupKey(o, _) => SlashFree(o)
    case EnterpriseKey(e) => SlashFree(e)
    case EnterpriseGroupKey(e, _) => SlashFree(e)
  }

  /** An owner called "enterprises" taken for an enterprise: its repository for the
      enterprise, or its group "group/..." for a group of the enterprise "group". */
  predicate Twins(k: Key, k': Key) {
    || (k.RepositoryKey? && k.owner == ENTERPRISES && k' == EnterpriseKey(k.repo))
    || (k.OrganizationGroupKey? && k.org == ENTERPRISES && k'.EnterpriseGroupKey?
        && k'.enterprise == "group" && k.group == Join("group", k'.group))
  }

  lemma JoinInjective(a: string, b: string, a': string, b': string)
    requires SlashFree(a) && SlashFree(a') && Join(a, b) == Join(a', b')
    ensures a == a' && b == b'
  {
    var s := Join(a, b);
    assert s[|a|] == '/' && s[|a'|] == '/';
    assert a == s[..|a|] && a' == s[..|a'|] && b == s[|a| + 1..] && b' == s[|a'| + 1..];
  }

  lemma JoinHasSlash(a: string, b: string)
    ensures !SlashFree(Join(a, b))
  {
    assert Join(a, b)[|a|] == '/';
  }

  /** A key without its first segment. */
  function Head(k: Key): string {
    match k
    case RepositoryKey(o, _) => o
    case OrganizationKey(o) => o
    case OrganizationGroupKey(o, _) => o
    case EnterpriseKey(_) => ENTERPRISES
    case EnterpriseGroupKey(_, _) => ENTERPRISES
  }

  function Tail(k: Key): string {
    match k
    case RepositoryKey(_, r) => r
    case OrganizationKey(_) => ""
    case OrganizationGroupKey(_, g) => Join("group", g)
    case EnterpriseKey(e) => e
    case EnterpriseGroupKey(e, g) => Join(e, Join("group", g))
  }

  predicate Equivalent(k: Key, k': Key) { k == k' || Twins(k, k') || Twins(k', k) }

  lemma OrganizationGroupTail(g: string, k': Key)
    requires SlashFreeKey(k') && !k'.OrganizationKey? && Tail(k') == Join("group", g)
    ensures (k'.OrganizationGroupKey? && k'.group == g)
            || (k'.EnterpriseGroupKey? && k'.enterprise == "group" && g == Join("group", k'.group))
  {
    JoinHasSlash("group", g);
    match k'
    case OrganizationGroupKey(_, g') => JoinInjective("group", g, "group", g');
    case EnterpriseGroupKey(e, g') => JoinInjective("group", g, e, Join("group", g'));
    case _ =>
  }

  lemma EnterpriseGroupTail(e: string, g: string, k': Key)
    requires SlashFree(e) && SlashFreeKey(k') && !k'.OrganizationKey? && Tail(k') == Join(e, Join("group", g))
    ensures (k'.EnterpriseGroupKey? && k'.enterprise == e && k'.group == g)
            || (k'.OrganizationGroupKey? && e == "group" && k'.group == Join("group", g))
  {
    JoinHasSlash(e, Join("group", g));
    match k'
    case OrganizationGroupKey(_, g') => JoinInjective(e, Join("group", g), "group", g');
    case EnterpriseGroupKey(e', g') =>
      JoinInjective(e, Join("group", g), e', Join("group", g'));
      JoinInjective("group", g, "group", g');
    case _ =>
  }

  lemma PlainTail(k: Key, k': Key)
    requires SlashFreeKey(k) && SlashFreeKey(k') && !k'.OrganizationKey? && Tail(k) == Tail(k')
    requires k.RepositoryKey? || k.EnterpriseKey?
    ensures k'.RepositoryKey? || k'.EnterpriseKey?
  {
    match k'
    case OrganizationGroupKey(_, g) => JoinHasSlash("group", g);
    case EnterpriseGroupKey(e, g) => JoinHasSlash(e, Join("group", g));
    case _ =>
  }

  lemma SameHeadAndTail(k: Key, k': Key)
    requires SlashFreeKey(k) && SlashFreeKey(k') && !k.OrganizationKey? && !k'.OrganizationKey?
    requires Head(k) == Head(k') && Tail(k) == Tail(k')
    ensures Equivalent(k, k')
  {
    match k
    case OrganizationGroupKey(_, g) => OrganizationGroupTail(g, k');
    case EnterpriseGroupKey(e, g) => EnterpriseGroupTail(e, g, k');
    case _ => PlainTail(k, k');
  }

  /** Two keys are rendered alike exactly when they are the same or twins. */
  lemma SameStringIff(k: Key, k': Key)
    requires SlashFreeKey(k) && SlashFreeKey(k')
    ensures Render(k) == Render(k') <==> Equivalent(k, k')
  {
    if Render(k) == Render(k') {
      if k.OrganizationKey? || k'.OrganizationKey? {
        if !k.OrganizationKey? { JoinHasSlash(Head(k), Tail(k)); }
        if !k'.OrganizationKey? { JoinHasSlash(Head(k'), Tail(k')); }
      } else {
        assert SlashFree(ENTERPRISES);
        JoinInjective(Head(k), Tail(k), Head(k'), Tail(k'));
        SameHeadAndTail(k, k');
      }
    }
  }

  /** The group's name starts with "group/". */
  predicate Nested(group: string) { Join("group", "") <= group }

  predicate Collides(k: Key) {
    match k
    case RepositoryKey(o, _) => o == ENTERPRISES
    case OrganizationKey(_) => false
    case OrganizationGroupKey(o, g) => o == ENTERPRISES && Nested(g)
    case EnterpriseKey(_) => true
    case EnterpriseGroupKey(e, _) => e == "group"
  }

  ghost predicate HasTwin(k: Key) {
    exists k' :: SlashFreeKey(k') && k' != k && Render(k') == Render(k)
  }

  lemma TwinOf(k: Key) returns (k': Key)
    requires SlashFreeKey(k) && Collides(k)
    ensures SlashFreeKey(k') && k' != k && Equivalent(k, k')
  {
    assert SlashFree(ENTERPRISES) && SlashFree("group");
    match k
    case RepositoryKey(_, r) => k' := EnterpriseKey(r);
    case OrganizationGroupKey(_, g) =>
      k' := EnterpriseGroupKey("group", g[6..]);
      assert g == g[..6] + g[6..];
    case EnterpriseKey(e) => k' := RepositoryKey(ENTERPRISES, e);
    case EnterpriseGroupKey(_, g) => k' := OrganizationGroupKey(ENTERPRISES, Join("group", g));
  }

  /** For each kind of key, exactly when another key is rendered alike. */
  lemma CollidesIff(k: Key)
    requires SlashFreeKey(k)
    ensures HasTwin(k) <==> Collides(k)
  {
    if HasTwin(k) {
      var k' :| SlashFreeKey(k') && k' != k && Render(k') == Render(k);
      SameStringIff(k, k');
    }
    if Collides(k) {
      var k' := TwinOf(k);
      SameStringIff(k, k');
    }
  }

  // ---- The index ----

  datatype TargetKind = RunnerDeployment | RunnerSet

  datatype Target = Target(
    kind: TargetKind, enterprise: string, organization: string, repository: string, group: string)

  /** A `None` target cannot be read: it does not exist or is of no supported kind. */
  datatype Hra = Hra(name: string, target: Option<Target>)

  function OrganizationKeys(t: Target): seq<string> {
    if t.organization == "" then []
    else if t.group == "" then [t.organization]
    else (if t.kind.RunnerSet? then [t.organization] else []) + [Render(OrganizationGroupKey(t.organization, t.group))]
  }

  function EnterpriseKeys(t: Target): seq<string> {
    if t.enterprise == "" then []
    else if t.group == "" then [Render(EnterpriseKey(t.enterprise))]
    else (if t.kind.RunnerSet? then [Render(EnterpriseKey(t.enterprise))] else [])
         + [Render(EnterpriseGroupKey(t.enterprise, t.group))]
  }

  function IndexKeys(t: Target): seq<string> {
    (if t.repository == "" then [] else [t.repository]) + OrganizationKeys(t) + EnterpriseKeys(t)
  }

  predicate Found(h: Hra, key: string) {
    key != "" && h.target.Some? && key in IndexKeys(h.target.value)
  }

  function FindByKey(hras: seq<Hra>, key: string): (r: seq<Hra>)
    ensures forall h :: h in r <==> h in hras && Found(h, key)
  {
    if hras == [] then []
    else
      assert hras == [hras[0]] + hras[1..];
      (if Found(hras[0], key) then [hras[0]] else []) + FindByKey(hras[1..], key)
  }

  // ---- The event ----

  datatype Event = Event(repo: string, owner: string, ownerType: string, enterprise: string)

  /** The group a target contributes to the search, if the event concerns it. */
  function ContributedGroup(t: Target, ev: Event): Option<RunnerGroup> {
    if t.group != "" && t.enterprise == "" && t.organization == "" then None
    else if t.enterprise != ev.enterprise && t.organization != ev.owner then None
    else Some(FromProperties(t.enterprise, t.group))
  }

  function ManagedGroups(hras: seq<Hra>, ev: Event): (r: seq<RunnerGroup>)
    requires forall i :: 0 <= i < |hras| ==> hras[i].target.Some?
  {
    if hras == [] then []
    else
      var g := ContributedGroup(hras[|hras| - 1].target.value, ev);
      ManagedGroups(hras[..|hras| - 1], ev) + (if g.Some? then [g.value] else [])
  }

  /** The index key under which the targets of a group are looked up. */
  function GroupKey(g: RunnerGroup, ev: Event): Key {
    match (g.kind, g.scope)
    case (DefaultGroup, Organization) => OrganizationKey(ev.owner)
    case (DefaultGroup, Enterprise) => EnterpriseKey(ev.enterprise)
    case (CustomGroup, Organization) => OrganizationGroupKey(ev.owner, g.name)
    case (CustomGroup, Enterprise) => EnterpriseGroupKey(ev.enterprise, g.name)
  }

  function RepoKey(ev: Event): Key { RepositoryKey(ev.owner, ev.repo) }

  /** The search looks up `k` for this event, unless it ends before. */
  ghost predicate LooksUp(hras: seq<Hra>, ev: Event, k: Key)
    requires forall i :: 0 <= i < |hras| ==> hras[i].target.Some?
  {
    k == RepoKey(ev) || (ev.ownerType != "User" && exists g :: g in ManagedGroups(hras, ev) && k == GroupKey(g, ev))
  }

  ghost predicate Reachable(hras: seq<Hra>, ev: Event, h: Hra)
    requires forall i :: 0 <= i < |hras| ==> hras[i].target.Some?
  {
    h in hras && exists k :: LooksUp(hras, ev, k) && Found(h, Render(k))
  }

  /** The target belongs to the event's repository, organization or enterprise. */
  predicate Concerns(t: Target, ev: Event) {
    || (t.repository != "" && t.repository == Join(ev.owner, ev.repo))
    || (t.organization != "" && t.organization == ev.owner)
    || (t.enterprise != "" && t.enterprise == ev.enterprise)
  }

  /** An owner and a name, neither empty, with one slash between them. */
  predicate ValidRepository(r: string) {
    exists i :: 0 < i < |r| - 1 && r[i] == '/' && SlashFree(r[..i]) && SlashFree(r[i + 1..])
  }

  /** A validated target: exactly one scope is set and its names have no slash. */
  predicate Validated(t: Target) {
    && (if t.organization != "" then 1 else 0) + (if t.repository != "" then 1 else 0)
       + (if t.enterprise != "" then 1 else 0) == 1
    && SlashFree(t.organization) && SlashFree(t.enterprise)
    && (t.repository != "" ==> ValidRepository(t.repository))
  }

  predicate ValidEvent(ev: Event) {
    SlashFree(ev.owner) && SlashFree(ev.repo) && SlashFree(ev.enterprise)
  }

  /** Targets and events that use the name "enterprises" where a key may be mistaken. */
  predicate Reserved(t: Target, ev: Event) {
    || ev.owner == ENTERPRISES
    || Join(ENTERPRISES, "") <= t.repository
    || (t.organization == ENTERPRISES && Nested(t.group))
  }

  // ---- The index agrees with the fields ----

  /** The key behind each string in the index of a validated target. */
  ghost predicate KeyOfTarget(t: Target, k: Key) {
    match k
    case RepositoryKey(o, r) => t.repository != "" && t.repository == Join(o, r)
    case OrganizationKey(o) => t.organization != "" && t.organization == o && (t.group == "" || t.kind.RunnerSet?)
    case OrganizationGroupKey(o, g) => t.organization != "" && t.organization == o && t.group != "" && t.group == g
    case EnterpriseKey(e) => t.enterprise != "" && t.enterprise == e && (t.group == "" || t.kind.RunnerSet?)
    case EnterpriseGroupKey(e, g) => t.enterprise != "" && t.enterprise == e && t.group != "" && t.group == g
  }

  lemma IndexedRepository(t: Target) returns (k: Key)
    requires ValidRepository(t.repository)
    ensures SlashFreeKey(k) && Render(k) == t.repository && k.RepositoryKey? && KeyOfTarget(t, k)
  {
    var r := t.repository;
    var i :| 0 < i < |r| - 1 && r[i] == '/' && SlashFree(r[..i]) && SlashFree(r[i + 1..]);
    k := RepositoryKey(r[..i], r[i + 1..]);
    assert r == Join(r[..i], r[i + 1..]);
  }

  lemma IndexedOrganization(t: Target, s: string) returns (k: Key)
    requires SlashFree(t.organization) && s in OrganizationKeys(t)
    ensures SlashFreeKey(k) && Render(k) == s && KeyOfTarget(t, k)
  {
    if t.group == "" || (t.kind.RunnerSet? && s == t.organization) {
      k := OrganizationKey(t.organization);
    } else {
      k := OrganizationGroupKey(t.organization, t.group);
    }
  }

  lemma IndexedEnterprise(t: Target, s: string) returns (k: Key)
    requires SlashFree(t.enterprise) && s in EnterpriseKeys(t)
    ensures SlashFreeKey(k) && Render(k) == s && KeyOfTarget(t, k)
  {
    if t.group == "" || (t.kind.RunnerSet? && s == Render(EnterpriseKey(t.enterprise))) {
      k := EnterpriseKey(t.enterprise);
    } else {
      k := EnterpriseGroupKey(t.enterprise, t.group);
    }
  }

  lemma IndexedKey(t: Target, s: string) returns (k: Key)
    requires Validated(t) && s in IndexKeys(t)
    ensures SlashFreeKey(k) && Render(k) == s && KeyOfTarget(t, k)
  {
    if s in OrganizationKeys(t) {
      k := IndexedOrganization(t, s);
    } else if s in EnterpriseKeys(t) {
      k := IndexedEnterprise(t, s);
    } else {
      k := IndexedRepository(t);
    }
  }

  lemma KeyIsIndexed(t: Target, k: Key)
    requires KeyOfTarget(t, k)
    ensures Render(k) in IndexKeys(t)
  {
    match k
    case RepositoryKey(_, _) =>
    case OrganizationKey(_) => assert Render(k) in OrganizationKeys(t);
    case OrganizationGroupKey(_, _) => assert Render(k) in OrganizationKeys(t);
    case EnterpriseKey(_) => assert Render(k) in EnterpriseKeys(t);
    case EnterpriseGroupKey(_, _) => assert Render(k) in EnterpriseKeys(t);
  }

  lemma LookedUpSlashFree(hras: seq<Hra>, ev: Event, k: Key)
    requires ValidEvent(ev) && forall i :: 0 <= i < |hras| ==> hras[i].target.Some?
    requires LooksUp(hras, ev, k)
    ensures SlashFreeKey(k)
  {
  }

  lemma KeyConcernsEvent(t: Target, ev: Event, k: Key)
    requires KeyOfTarget(t, k)
    requires k == RepoKey(ev) || exists g :: k == GroupKey(g, ev)
    ensures Concerns(t, ev)
  {
  }

  /** Every group key of the event's own groups is in the index of the target that
      contributed the group. */
  lemma OwnGroupIndexed(t: Target, ev: Event)
    requires Validated(t) && t.repository == "" && Concerns(t, ev)
    ensures ContributedGroup(t, ev).Some?
    ensures var s := Render(GroupKey(ContributedGroup(t, ev).value, ev)); s != "" && s in IndexKeys(t)
  {
    assert SlashFree(ENTERPRISES);
    if t.organization != "" {
      assert Render(GroupKey(ContributedGroup(t, ev).value, ev)) in OrganizationKeys(t);
    } else {
      assert Render(GroupKey(ContributedGroup(t, ev).value, ev)) in EnterpriseKeys(t);
    }
  }

  lemma {:induction false} ContributedIsManaged(hras: seq<Hra>, ev: Event, h: Hra)
    requires forall i :: 0 <= i < |hras| ==> hras[i].target.Some?
    requires h in hras && ContributedGroup(h.target.value, ev).Some?
    ensures ContributedGroup(h.target.value, ev).value in ManagedGroups(hras, ev)
  {
    assert hras == hras[..|hras| - 1] + [hras[|hras| - 1]];
    if h != hras[|hras| - 1] {
      ContributedIsManaged(hras[..|hras| - 1], ev, h);
    }
  }

  /** A target contributes to the search when its enterprise or organization is the
      event's; a group without either is left out. */
  predicate Contributes(t: Target, ev: Event) {
    && (t.enterprise == ev.enterprise || t.organization == ev.owner)
    && (t.group == "" || t.enterprise != "" || t.organization != "")
  }

  /** The groups searched are exactly those of the contributing targets. */
  lemma {:induction false} ManagedIff(hras: seq<Hra>, ev: Event, g: RunnerGroup)
    requires forall i :: 0 <= i < |hras| ==> hras[i].target.Some?
    ensures g in ManagedGroups(hras, ev) <==>
              exists i :: 0 <= i < |hras| && Contributes(hras[i].target.value, ev)
                          && g == FromProperties(hras[i].target.value.enterprise, hras[i].target.value.group)
  {
    if hras != [] {
      var before, last := hras[..|hras| - 1], hras[|hras| - 1];
      ManagedIff(before, ev, g);
      assert Contributes(last.target.value, ev) <==> ContributedGroup(last.target.value, ev).Some?;
    }
  }

  ghost predicate AllValid(hras: seq<Hra>) {
    forall i :: 0 <= i < |hras| ==> hras[i].target.Some? && Validated(hras[i].target.value)
  }

  /** The event's own claim on a target: for a user only the repository counts. */
  predicate Wanted(t: Target, ev: Event) {
    if ev.ownerType == "User" then t.repository == Render(RepoKey(ev)) else Concerns(t, ev)
  }

  /** A key that is looked up is mistaken for one of the target's. */
  ghost predicate Mistaken(hras: seq<Hra>, ev: Event, t: Target)
    requires forall i :: 0 <= i < |hras| ==> hras[i].target.Some?
  {
    exists k, k' :: LooksUp(hras, ev, k) && KeyOfTarget(t, k') && SlashFreeKey(k') && (Twins(k, k') || Twins(k', k))
  }

  lemma WantedIsReachable(hras: seq<Hra>, ev: Event, h: Hra)
    requires AllValid(hras) && h in hras && Wanted(h.target.value, ev)
    ensures Reachable(hras, ev, h)
  {
    var t := h.target.value;
    if t.repository != "" {
      assert LooksUp(hras, ev, RepoKey(ev)) && Found(h, Render(RepoKey(ev)));
    } else {
      OwnGroupIndexed(t, ev);
      ContributedIsManaged(hras, ev, h);
      var g := ContributedGroup(t, ev).value;
      assert LooksUp(hras, ev, GroupKey(g, ev)) && Found(h, Render(GroupKey(g, ev)));
    }
  }

  lemma MistakenIsReachable(hras: seq<Hra>, ev: Event, h: Hra)
    requires AllValid(hras) && ValidEvent(ev) && h in hras && Mistaken(hras, ev, h.target.value)
    ensures Reachable(hras, ev, h)
  {
    var t := h.target.value;
    var k, k' :| LooksUp(hras, ev, k) && KeyOfTarget(t, k') && SlashFreeKey(k') && (Twins(k, k') || Twins(k', k));
    LookedUpSlashFree(hras, ev, k);
    SameStringIff(k, k');
    KeyIsIndexed(t, k');
    assert Render(k') != "";
    assert Found(h, Render(k));
  }

  lemma ReachedWhy(hras: seq<Hra>, ev: Event, h: Hra, k: Key)
    requires AllValid(hras) && ValidEvent(ev) && h in hras && LooksUp(hras, ev, k) && Found(h, Render(k))
    ensures Wanted(h.target.value, ev) || Mistaken(hras, ev, h.target.value)
  {
    var t := h.target.value;
    LookedUpSlashFree(hras, ev, k);
    var k' := IndexedKey(t, Render(k));
    SameStringIff(k, k');
    if k == k' {
      KeyConcernsEvent(t, ev, k);
    }
  }

  /** For all slash-free names: the search reaches exactly the autoscalers whose target
      belongs to the event, and those for which a key is mistaken. */
  lemma ReachableIff(hras: seq<Hra>, ev: Event, h: Hra)
    requires AllValid(hras) && ValidEvent(ev) && h in hras
    ensures Reachable(hras, ev, h) <==> Wanted(h.target.value, ev) || Mistaken(hras, ev, h.target.value)
  {
    if Reachable(hras, ev, h) {
      var k :| LooksUp(hras, ev, k) && Found(h, Render(k));
      ReachedWhy(hras, ev, h, k);
    }
    if Wanted(h.target.value, ev) {
      WantedIsReachable(hras, ev, h);
    }
    if Mistaken(hras, ev, h.target.value) {
      MistakenIsReachable(hras, ev, h);
    }
  }

  /** A mistaken key: repository "enterprises/e" reaches the autoscaler of enterprise "e",
      whatever enterprise the event belongs to. */
  lemma RepositoryTakenForEnterprise(e: string, enterprise: string)
    requires e != "" && SlashFree(e) && SlashFree(enterprise) && e != enterprise
    ensures var h := Hra("h", Some(Target(RunnerDeployment, e, "", "", "")));
            var ev := Event(e, ENTERPRISES, "Organization", enterprise);
            && AllValid([h]) && ValidEvent(ev)
            && Reachable([h], ev, h) && !Wanted(h.target.value, ev)
  {
    var t := Target(RunnerDeployment, e, "", "", "");
    var h, ev := Hra("h", Some(t)), Event(e, ENTERPRISES, "Organization", enterprise);
    assert SlashFree(ENTERPRISES);
    assert LooksUp([h], ev, RepoKey(ev)) && KeyOfTarget(t, EnterpriseKey(e)) && Twins(RepoKey(ev), EnterpriseKey(e));
    MistakenIsReachable([h], ev, h);
  }

  lemma RepositoryPrefix(t: Target, k: Key)
    requires KeyOfTarget(t, k)
    ensures k.RepositoryKey? && k.owner == ENTERPRISES ==> Join(ENTERPRISES, "") <= t.repository
  {
    assert k.RepositoryKey? && k.owner == ENTERPRISES ==> t.repository == Join(ENTERPRISES, "") + k.repo;
  }

  lemma GroupPrefix(k: Key, k': Key)
    ensures Twins(k, k') && k.OrganizationGroupKey? ==> Nested(k.group)
  {
    assert Twins(k, k') && k.OrganizationGroupKey? ==> k.group == Join("group", "") + k'.group;
  }

  lemma UnreservedIsClear(hras: seq<Hra>, ev: Event, t: Target)
    requires (forall i :: 0 <= i < |hras| ==> hras[i].target.Some?) && !Reserved(t, ev)
    ensures !Mistaken(hras, ev, t)
  {
    forall k, k' | LooksUp(hras, ev, k) && KeyOfTarget(t, k') ensures !Twins(k, k') && !Twins(k', k) {
      RepositoryPrefix(t, k');
      GroupPrefix(k', k);
    }
  }

  /** Without such names: exactly the autoscalers whose repository, organization or
      enterprise is the event's. */
  lemma ReachableIffConcerned(hras: seq<Hra>, ev: Event, h: Hra)
    requires AllValid(hras) && ValidEvent(ev) && h in hras && !Reserved(h.target.value, ev)
    ensures Reachable(hras, ev, h) <==> Wanted(h.target.value, ev)
  {
    ReachableIff(hras, ev, h);
    UnreservedIsClear(hras, ev, h.target.value);
  }

  // ---- The search ----

  /** Collects the groups that the autoscalers' targets manage. */
  method GetManagedRunnerGroups(hras: seq<Hra>, ev: Event) returns (ok: bool, groups: VisibleRunnerGroups)
    ensures fresh(groups) && groups.Valid()
    ensures ok <==> forall i :: 0 <= i < |hras| ==> hras[i].target.Some?
    ensures ok ==> groups.added == ManagedGroups(hras, ev)
  {
    groups := new VisibleRunnerGroups();
    for n := 0 to |hras|
      invariant fresh(groups) && groups.Valid()
      invariant forall i :: 0 <= i < n ==> hras[i].target.Some?
      invariant groups.added == ManagedGroups(hras[..n], ev)
    {
      assert hras[..n + 1][..n] == hras[..n];
      if hras[n].target.None? {
        return false, groups;
      }
      var t := hras[n].target.value;
      if t.group != "" && t.enterprise == "" && t.organization == "" {
        continue;
      }
      if t.enterprise != ev.enterprise && t.organization != ev.owner {
        continue;
      }
      groups.Add(FromProperties(t.enterprise, t.group));
    }
    assert hras[..|hras|] == hras;
    return true, groups;
  }

  /** `Failed` is an error of the repository's lookup. */
  datatype Search = Hit(hra: Hra) | Miss | Unreadable | Failed

  /** What the caller makes of the autoscalers found under one key. */
  datatype Choice = Chosen(hra: Hra) | Nothing | Broken

  type Chooser = seq<Hra> -> Choice

  function LookUp(hras: seq<Hra>, k: Key, select: Chooser): Choice { select(FindByKey(hras, Render(k))) }

  ghost predicate Readable(hras: seq<Hra>) { forall i :: 0 <= i < |hras| ==> hras[i].target.Some? }

  /** `g` has the highest precedence of the managed groups whose lookup yields anything. */
  ghost predicate Highest(hras: seq<Hra>, ev: Event, select: Chooser, g: RunnerGroup)
    requires Readable(hras)
  {
    && g in ManagedGroups(hras, ev) && !LookUp(hras, GroupKey(g, ev), select).Nothing?
    && forall g' :: g' in ManagedGroups(hras, ev) && !LookUp(hras, GroupKey(g', ev), select).Nothing? ==>
                      Rank(g) <= Rank(g')
  }

  ghost predicate FromHighest(hras: seq<Hra>, ev: Event, select: Chooser, h: Hra, g: RunnerGroup)
    requires Readable(hras)
  {
    Highest(hras, ev, select, g) && LookUp(hras, GroupKey(g, ev), select) == Chosen(h)
  }

  /** The search met an error in a group and, as the source does, returned nothing. */
  ghost predicate Swallowed(hras: seq<Hra>, ev: Event, select: Chooser)
    requires Readable(hras)
  {
    ev.ownerType != "User"
    && exists g :: Highest(hras, ev, select, g) && LookUp(hras, GroupKey(g, ev), select).Broken?
  }

  /** The choice is made from the list. */
  ghost predicate Picks(select: Chooser) { forall l :: select(l).Chosen? ==> select(l).hra in l }

  /** There is no error, and a choice whenever there is something to choose from. */
  ghost predicate Decisive(select: Chooser) {
    forall l :: !select(l).Broken? && (l != [] ==> select(l).Chosen?)
  }

  /** A choice made under a key that is looked up belongs to the event. */
  lemma ChosenIsWanted(hras: seq<Hra>, ev: Event, select: Chooser, k: Key, h: Hra)
    requires AllValid(hras) && ValidEvent(ev) && Picks(select) && LooksUp(hras, ev, k)
    requires LookUp(hras, k, select) == Chosen(h) && (h in hras ==> !Reserved(h.target.value, ev))
    ensures h in hras && Wanted(h.target.value, ev)
  {
    assert h in FindByKey(hras, Render(k));
    ReachableIffConcerned(hras, ev, h);
  }

  /** If no key yields a choice, no autoscaler belongs to the event. */
  lemma MissMeansNoneWanted(hras: seq<Hra>, ev: Event, select: Chooser, h: Hra)
    requires AllValid(hras) && Decisive(select) && h in hras
    requires forall k :: LooksUp(hras, ev, k) ==> LookUp(hras, k, select).Nothing?
    ensures !Wanted(h.target.value, ev)
  {
    if Wanted(h.target.value, ev) {
      WantedIsReachable(hras, ev, h);
    }
  }

  /** What the search promises: a hit belongs to the event, and after a miss nothing does. */
  ghost predicate Right(hras: seq<Hra>, ev: Event, select: Chooser, r: Search)
    requires AllValid(hras)
  {
    && (r.Hit? && Picks(select) && (r.hra in hras ==> !Reserved(r.hra.target.value, ev)) ==>
          r.hra in hras && Wanted(r.hra.target.value, ev))
    && (r.Miss? && Decisive(select) ==> forall h :: h in hras ==> !Wanted(h.target.value, ev))
  }

  lemma HitIsRight(hras: seq<Hra>, ev: Event, select: Chooser, k: Key, h: Hra)
    requires Readable(hras) && LooksUp(hras, ev, k) && LookUp(hras, k, select) == Chosen(h)
    ensures AllValid(hras) && ValidEvent(ev) ==> Right(hras, ev, select, Hit(h))
  {
    if AllValid(hras) && ValidEvent(ev) && Picks(select) && (h in hras ==> !Reserved(h.target.value, ev)) {
      ChosenIsWanted(hras, ev, select, k, h);
    }
  }

  lemma MissIsRight(hras: seq<Hra>, ev: Event, select: Chooser)
    requires Readable(hras)
    requires Swallowed(hras, ev, select) || forall k :: LooksUp(hras, ev, k) ==> LookUp(hras, k, select).Nothing?
    ensures AllValid(hras) ==> Right(hras, ev, select, Miss)
  {
    if AllValid(hras) && Decisive(select) {
      forall h | h in hras ensures !Wanted(h.target.value, ev) {
        MissMeansNoneWanted(hras, ev, select, h);
      }
    }
  }

  /** The autoscaler of the repository, else that of the group of highest precedence
      that has one. An error in the group of highest precedence ends the search with
      nothing found, an error in the repository's lookup with a failure. */
  method GetScaleUpTarget(hras: seq<Hra>, ev: Event, select: Chooser) returns (r: Search)
    ensures var first := LookUp(hras, RepoKey(ev), select); first.Chosen? ==> r == Hit(first.hra)
    ensures r.Failed? <==> LookUp(hras, RepoKey(ev), select).Broken?
    ensures r.Unreadable? ==> !Readable(hras)
    ensures Readable(hras) && LookUp(hras, RepoKey(ev), select).Nothing? && r.Hit? ==>
              ev.ownerType != "User" && exists g :: FromHighest(hras, ev, select, r.hra, g)
    ensures Readable(hras) && r.Miss? ==>
              || Swallowed(hras, ev, select)
              || forall k :: LooksUp(hras, ev, k) ==> LookUp(hras, k, select).Nothing?
    ensures AllValid(hras) && ValidEvent(ev) ==> Right(hras, ev, select, r)
  {
    var first := LookUp(hras, RepoKey(ev), select);
    if first.Broken? {
      return Failed;
    }
    if first.Chosen? {
      if Readable(hras) {
        HitIsRight(hras, ev, select, RepoKey(ev), first.hra);
      }
      return Hit(first.hra);
    }
    if ev.ownerType == "User" {
      if Readable(hras) {
        MissIsRight(hras, ev, select);
      }
      return Miss;
    }
    var ok, groups := GetManagedRunnerGroups(hras, ev);
    if !ok {
      return Unreadable;
    }
    r := SearchGroups(hras, ev, select, groups);
    if r.Hit? {
      ghost var g :| FromHighest(hras, ev, select, r.hra, g);
      HitIsRight(hras, ev, select, GroupKey(g, ev), r.hra);
    } else {
      MissIsRight(hras, ev, select);
    }
  }

  /** Traverses the managed groups for the first one whose lookup yields anything. */
  method SearchGroups(hras: seq<Hra>, ev: Event, select: Chooser, groups: VisibleRunnerGroups) returns (r: Search)
    requires Readable(hras) && groups.Valid() && groups.added == ManagedGroups(hras, ev) && ev.ownerType != "User"
    ensures r.Hit? || r.Miss?
    ensures r.Hit? ==> exists g :: FromHighest(hras, ev, select, r.hra, g)
    ensures r.Miss? ==>
              || Swallowed(hras, ev, select)
              || forall g :: g in ManagedGroups(hras, ev) ==> LookUp(hras, GroupKey(g, ev), select).Nothing?
  {
    var visit := (g: RunnerGroup) =>
      match LookUp(hras, GroupKey(g, ev), select)
      case Chosen(_) => Accept
      case Nothing => Skip
      case Broken => Fail;
    var i := groups.Traverse(visit);
    StableSortIsPermutation(groups.sortedGroups, groups.added, Rank);
    if i == |groups.sortedGroups| {
      return Miss;
    }
    var g := groups.sortedGroups[i];
    TraversalStopsAtHighest(groups.sortedGroups, groups.added, visit);
    forall g' | g' in ManagedGroups(hras, ev) && !LookUp(hras, GroupKey(g', ev), select).Nothing?
      ensures Rank(g) <= Rank(g')
    {
      assert !visit(g').Skip?;
    }
    assert Highest(hras, ev, select, g);
    var choice := LookUp(hras, GroupKey(g, ev), select);
    if choice.Broken? {
      return Miss;
    }
    r := Hit(choice.hra);
    assert FromHighest(hras, ev, select, r.hra, g);
  }
}
