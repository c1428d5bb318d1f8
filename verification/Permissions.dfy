/** The permission map, its evaluation, and the policy that it amounts to. */
module Permissions {
  import opened Options
  import opened Predicates

  // ----- Who asks about what -----

  datatype LongLivedUser = LongLivedUser(id: nat, userid: string, authority: string, groups: seq<nat>, staff: bool, admin: bool)
  datatype AuthClient = AuthClient(authority: string)
  datatype Identity = Identity(user: Option<LongLivedUser>, authClient: Option<AuthClient>)

  datatype Audience = Nobody | Authority | OnlyMembers | World
  datatype User = User(authority: string)
  datatype Group = Group(id: nat, authority: string, creator: Option<nat>, joinableBy: Audience, readableBy: Audience,
      writeableBy: Audience)
  datatype Annotation = Annotation(userid: string, shared: bool, deleted: bool)

  /** `None` is a missing attribute as well as an attribute that holds nothing. */
  datatype Context = Context(user: Option<User>, annotation: Option<Annotation>, group: Option<Group>)

  // ----- Predicates -----

  datatype Predicate =
    | Authenticated | AuthenticatedUser | UserIsStaff | UserIsAdmin | AuthenticatedClient | AuthenticatedClientIsLms
    | UserFound | UserAuthorityMatchesAuthenticatedClient
    | AnnotationFound | AnnotationShared | AnnotationNotShared | AnnotationLive | AnnotationCreatedByUser
    | GroupFound | GroupWritableByMembers | GroupWritableByAuthority | GroupReadableByWorld | GroupReadableByMembers
    | GroupJoinableByAuthority | GroupCreatedByUser | GroupHasUserAsMember | GroupMatchesUserAuthority
    | GroupMatchesAuthenticatedClientAuthority

  datatype Permission =
    | AdminPageHighRisk | AdminPageLowRisk | UserCreate | UserUpdate | UserRead | ApiBulkAction | ProfileUpdate
    | GroupCreate | GroupWrite | GroupJoin | GroupRead | GroupFlag | GroupEdit | GroupMemberAdd | GroupModerate
    | AnnotationCreate | AnnotationReadRealtimeUpdates | AnnotationRead | AnnotationFlag | AnnotationModerate
    | AnnotationUpdate | AnnotationDelete
    | Unlisted(name: string)

  datatype Element = Check(predicate_: Predicate) | Grant(permission: Permission)

  /** The `@requires` decorations. */
  function Required(e: Element): seq<Element> {
    match e
    case Grant(_) => []
    case Check(p) =>
      match p
      case Authenticated | UserFound | AnnotationFound | GroupFound => []
      case AuthenticatedUser | AuthenticatedClient => [Check(Authenticated)]
      case UserIsStaff | UserIsAdmin => [Check(AuthenticatedUser)]
      case AuthenticatedClientIsLms => [Check(AuthenticatedClient)]
      case UserAuthorityMatchesAuthenticatedClient => [Check(AuthenticatedClient), Check(UserFound)]
      case AnnotationShared | AnnotationNotShared | AnnotationLive => [Check(AnnotationFound)]
      case AnnotationCreatedByUser => [Check(AuthenticatedUser), Check(AnnotationFound)]
      case GroupWritableByMembers | GroupWritableByAuthority | GroupReadableByWorld | GroupReadableByMembers
         | GroupJoinableByAuthority => [Check(GroupFound)]
      case GroupCreatedByUser | GroupHasUserAsMember | GroupMatchesUserAuthority => [Check(AuthenticatedUser), Check(GroupFound)]
      case GroupMatchesAuthenticatedClientAuthority => [Check(AuthenticatedClient), Check(GroupFound)]
  }

  const MAX_HEIGHT := 3

  function Height(e: Element): nat {
    match e
    case Grant(_) => 0
    case Check(p) =>
      match p
      case Authenticated | UserFound | AnnotationFound | GroupFound => 0
      case AuthenticatedUser | AuthenticatedClient | AnnotationShared | AnnotationNotShared | AnnotationLive => 1
      case GroupWritableByMembers | GroupWritableByAuthority | GroupReadableByWorld | GroupReadableByMembers
         | GroupJoinableByAuthority => 1
      case _ => 2
  }

  lemma RequiredIsAcyclic()
    ensures Acyclic(Required, Height)
    ensures forall clause: seq<Element> :: Below(clause, Height, MAX_HEIGHT)
  {
  }

  function Truth(b: bool): Outcome {
    if b then Truthy else Falsy
  }

  predicate IsLms(authority: string) {
    "lms." <= authority && |".hypothes.is"| <= |authority| && authority[|authority| - |".hypothes.is"|..] == ".hypothes.is"
  }

  function OfUser(identity: Option<Identity>, test: LongLivedUser -> bool): Outcome {
    if identity.None? || identity.value.user.None? then Raises else Truth(test(identity.value.user.value))
  }

  function OfClient(identity: Option<Identity>, test: AuthClient -> bool): Outcome {
    if identity.None? || identity.value.authClient.None? then Raises else Truth(test(identity.value.authClient.value))
  }

  function OfSome<T>(value: Option<T>, test: T -> bool): Outcome {
    if value.None? then Raises else Truth(test(value.value))
  }

  /** The body of each predicate: reading an attribute of `None` raises. */
  function Body(p: Predicate, identity: Option<Identity>, context: Context): Outcome {
    match p
    case Authenticated => Truth(identity.Some?)
    case AuthenticatedUser => OfSome(identity, (i: Identity) => i.user.Some?)
    case UserIsStaff => OfUser(identity, (u: LongLivedUser) => u.staff)
    case UserIsAdmin => OfUser(identity, (u: LongLivedUser) => u.admin)
    case AuthenticatedClient => OfSome(identity, (i: Identity) => i.authClient.Some?)
    case AuthenticatedClientIsLms => OfClient(identity, (c: AuthClient) => IsLms(c.authority))
    case UserFound => Truth(context.user.Some?)
    case UserAuthorityMatchesAuthenticatedClient =>
      if context.user.None? then Raises else OfClient(identity, (c: AuthClient) => context.user.value.authority == c.authority)
    case AnnotationFound => Truth(context.annotation.Some?)
    case AnnotationShared => OfSome(context.annotation, (a: Annotation) => a.shared)
    case AnnotationNotShared => OfSome(context.annotation, (a: Annotation) => !a.shared)
    case AnnotationLive => OfSome(context.annotation, (a: Annotation) => !a.deleted)
    case AnnotationCreatedByUser =>
      if context.annotation.None? then Raises
      else OfUser(identity, (u: LongLivedUser) => u.userid == context.annotation.value.userid)
    case GroupFound => Truth(context.group.Some?)
    case GroupWritableByMembers => OfSome(context.group, (g: Group) => g.writeableBy == OnlyMembers)
    case GroupWritableByAuthority => OfSome(context.group, (g: Group) => g.writeableBy == Authority)
    case GroupReadableByWorld => OfSome(context.group, (g: Group) => g.readableBy == World)
    case GroupReadableByMembers => OfSome(context.group, (g: Group) => g.readableBy == OnlyMembers)
    case GroupJoinableByAuthority => OfSome(context.group, (g: Group) => g.joinableBy == Authority)
    case GroupCreatedByUser =>
      if context.group.None? then Raises
      else if context.group.value.creator.None? then Falsy
      else OfUser(identity, (u: LongLivedUser) => context.group.value.creator.value == u.id)
    case GroupHasUserAsMember =>
      if identity.None? || identity.value.user.None? then Raises
      else if identity.value.user.value.groups == [] then Falsy
      else OfSome(context.group, (g: Group) => g.id in identity.value.user.value.groups)
    case GroupMatchesUserAuthority =>
      if context.group.None? then Raises else OfUser(identity, (u: LongLivedUser) => context.group.value.authority == u.authority)
    case GroupMatchesAuthenticatedClientAuthority =>
      if context.group.None? then Raises else OfClient(identity, (c: AuthClient) => context.group.value.authority == c.authority)
  }

  // ----- The map -----

  function Clauses(permission: Permission): seq<seq<Element>> {
    match permission
    case AdminPageHighRisk => [[Check(UserIsAdmin)]]
    case AdminPageLowRisk => [[Check(UserIsAdmin)], [Check(UserIsStaff)]]
    case UserCreate => [[Check(AuthenticatedClient)]]
    case UserUpdate | UserRead => [[Check(UserAuthorityMatchesAuthenticatedClient)]]
    case ApiBulkAction => [[Check(AuthenticatedClientIsLms)]]
    case ProfileUpdate => [[Check(AuthenticatedUser)]]
    case GroupCreate => [[Check(AuthenticatedUser)]]
    case GroupWrite => [
      [Check(GroupWritableByAuthority), Check(GroupMatchesUserAuthority)],
      [Check(GroupWritableByMembers), Check(GroupHasUserAsMember)]]
    case GroupJoin => [[Check(GroupJoinableByAuthority), Check(GroupMatchesUserAuthority)]]
    case GroupRead => [
      [Check(GroupReadableByWorld)],
      [Check(GroupReadableByMembers), Check(GroupHasUserAsMember)],
      [Check(GroupMatchesAuthenticatedClientAuthority)]]
    case GroupFlag => [
      [Check(GroupReadableByWorld), Check(Authenticated)],
      [Check(GroupReadableByMembers), Check(GroupHasUserAsMember)]]
    case GroupEdit => [[Check(GroupMatchesAuthenticatedClientAuthority)], [Check(GroupCreatedByUser)]]
    case GroupMemberAdd => [[Check(GroupMatchesAuthenticatedClientAuthority)]]
    case GroupModerate => [[Check(GroupCreatedByUser)]]
    case AnnotationCreate => [[Check(Authenticated)]]
    case AnnotationReadRealtimeUpdates => [
      [Check(AnnotationNotShared), Check(AnnotationCreatedByUser)],
      [Check(AnnotationShared), Grant(GroupRead)]]
    case AnnotationRead => [
      [Check(AnnotationLive), Check(AnnotationNotShared), Check(AnnotationCreatedByUser)],
      [Check(AnnotationLive), Check(AnnotationShared), Grant(GroupRead)]]
    case AnnotationFlag => [
      [Check(AnnotationLive), Check(AnnotationNotShared), Check(AnnotationCreatedByUser)],
      [Check(AnnotationLive), Check(AnnotationShared), Grant(GroupFlag)]]
    case AnnotationModerate => [[Check(AnnotationLive), Check(AnnotationShared), Grant(GroupModerate)]]
    case AnnotationUpdate | AnnotationDelete => [[Check(AnnotationLive), Check(AnnotationCreatedByUser)]]
    case Unlisted(_) => []
  }

  /** Permissions of annotations may refer to permissions of groups, and to nothing else. */
  function Rank(permission: Permission): nat {
    match permission
    case AnnotationReadRealtimeUpdates | AnnotationRead | AnnotationFlag | AnnotationModerate => 1
    case _ => 0
  }

  lemma ReferencesLeadDown(permission: Permission, i: nat, e: Element)
    requires i < |Clauses(permission)| && e in Clauses(permission)[i] && e.Grant?
    ensures Rank(e.permission) < Rank(permission)
  {
  }

  /** One clause after expansion. */
  function Resolved(clause: seq<Element>): seq<Element> {
    RequiredIsAcyclic();
    Expand(clause, Required, Height, MAX_HEIGHT)
  }

  // ----- Evaluation -----

  function Any(clauses: seq<seq<Element>>, answer: Element -> Outcome): Outcome {
    if clauses == [] then Falsy else
    match All(Resolved(clauses[0]), answer)
    case Falsy => Any(clauses[1..], answer)
    case other => other
  }

  /** A reference that did not lead to a lower rank could go round in circles and raise. */
  function Answers(identity: Option<Identity>, context: Context, rank: nat): Element -> Outcome
    decreases rank, 0
  {
    (e: Element) =>
      match e
      case Check(p) => Body(p, identity, context)
      case Grant(q) => if Rank(q) < rank then IdentityPermits(identity, context, q) else Raises
  }

  function IdentityPermits(identity: Option<Identity>, context: Context, permission: Permission): Outcome
    decreases Rank(permission), 1
  {
    Any(Clauses(permission), Answers(identity, context, Rank(permission)))
  }

  // ----- The policy -----

  predicate IsUser(identity: Option<Identity>) {
    identity.Some? && identity.value.user.Some?
  }

  predicate IsClient(identity: Option<Identity>) {
    identity.Some? && identity.value.authClient.Some?
  }

  predicate Owns(identity: Option<Identity>, context: Context) {
    IsUser(identity) && context.annotation.Some? && identity.value.user.value.userid == context.annotation.value.userid
  }

  predicate Shared(context: Context) {
    context.annotation.Some? && context.annotation.value.shared
  }

  predicate Private(context: Context) {
    context.annotation.Some? && !context.annotation.value.shared
  }

  predicate Live(context: Context) {
    context.annotation.Some? && !context.annotation.value.deleted
  }

  predicate IsMember(identity: Option<Identity>, context: Context) {
    IsUser(identity) && context.group.Some? && context.group.value.id in identity.value.user.value.groups
  }

  predicate IsCreator(identity: Option<Identity>, context: Context) {
    IsUser(identity) && context.group.Some? && context.group.value.creator == Some(identity.value.user.value.id)
  }

  predicate SameAuthority(identity: Option<Identity>, context: Context) {
    IsUser(identity) && context.group.Some? && context.group.value.authority == identity.value.user.value.authority
  }

  predicate ClientOfGroup(identity: Option<Identity>, context: Context) {
    IsClient(identity) && context.group.Some? && context.group.value.authority == identity.value.authClient.value.authority
  }

  predicate Readable(context: Context, audience: Audience) {
    context.group.Some? && context.group.value.readableBy == audience
  }

  predicate Writable(context: Context, audience: Audience) {
    context.group.Some? && context.group.value.writeableBy == audience
  }

  predicate MayReadGroup(identity: Option<Identity>, context: Context) {
    || Readable(context, World)
    || (Readable(context, OnlyMembers) && IsMember(identity, context))
    || ClientOfGroup(identity, context)
  }

  predicate MayFlagInGroup(identity: Option<Identity>, context: Context) {
    (Readable(context, World) && identity.Some?) || (Readable(context, OnlyMembers) && IsMember(identity, context))
  }

  /** Who may do what, without clauses, requirements or references. */
  predicate Policy(identity: Option<Identity>, context: Context, permission: Permission) {
    match permission
    case AdminPageHighRisk => IsUser(identity) && identity.value.user.value.admin
    case AdminPageLowRisk => IsUser(identity) && (identity.value.user.value.admin || identity.value.user.value.staff)
    case UserCreate => IsClient(identity)
    case UserUpdate | UserRead =>
      IsClient(identity) && context.user.Some? && context.user.value.authority == identity.value.authClient.value.authority
    case ApiBulkAction => IsClient(identity) && IsLms(identity.value.authClient.value.authority)
    case ProfileUpdate | GroupCreate => IsUser(identity)
    case GroupWrite =>
      || (Writable(context, Authority) && SameAuthority(identity, context))
      || (Writable(context, OnlyMembers) && IsMember(identity, context))
    case GroupJoin => context.group.Some? && context.group.value.joinableBy == Authority && SameAuthority(identity, context)
    case GroupRead => MayReadGroup(identity, context)
    case GroupFlag => MayFlagInGroup(identity, context)
    case GroupEdit => ClientOfGroup(identity, context) || IsCreator(identity, context)
    case GroupMemberAdd => ClientOfGroup(identity, context)
    case GroupModerate => IsCreator(identity, context)
    case AnnotationCreate => identity.Some?
    case AnnotationReadRealtimeUpdates =>
      (Private(context) && Owns(identity, context)) || (Shared(context) && MayReadGroup(identity, context))
    case AnnotationRead =>
      Live(context) && if Shared(context) then MayReadGroup(identity, context) else Owns(identity, context)
    case AnnotationFlag =>
      Live(context) && if Shared(context) then MayFlagInGroup(identity, context) else Owns(identity, context)
    case AnnotationModerate => Live(context) && Shared(context) && IsCreator(identity, context)
    case AnnotationUpdate | AnnotationDelete => Live(context) && Owns(identity, context)
    case Unlisted(_) => false
  }

  // ----- The evaluation is the policy -----

  /** What a predicate says once everything it requires is true. */
  predicate Fact(e: Element, identity: Option<Identity>, context: Context) {
    match e
    case Grant(q) => Policy(identity, context, q)
    case Check(p) =>
      match p
      case Authenticated => identity.Some?
      case AuthenticatedUser => IsUser(identity)
      case UserIsStaff => IsUser(identity) && identity.value.user.value.staff
      case UserIsAdmin => IsUser(identity) && identity.value.user.value.admin
      case AuthenticatedClient => IsClient(identity)
      case AuthenticatedClientIsLms => IsClient(identity) && IsLms(identity.value.authClient.value.authority)
      case UserFound => context.user.Some?
      case UserAuthorityMatchesAuthenticatedClient =>
        IsClient(identity) && context.user.Some? && context.user.value.authority == identity.value.authClient.value.authority
      case AnnotationFound => context.annotation.Some?
      case AnnotationShared => Shared(context)
      case AnnotationNotShared => Private(context)
      case AnnotationLive => Live(context)
      case AnnotationCreatedByUser => Owns(identity, context)
      case GroupFound => context.group.Some?
      case GroupWritableByMembers => Writable(context, OnlyMembers)
      case GroupWritableByAuthority => Writable(context, Authority)
      case GroupReadableByWorld => Readable(context, World)
      case GroupReadableByMembers => Readable(context, OnlyMembers)
      case GroupJoinableByAuthority => context.group.Some? && context.group.value.joinableBy == Authority
      case GroupCreatedByUser => IsCreator(identity, context)
      case GroupHasUserAsMember => IsMember(identity, context)
      case GroupMatchesUserAuthority => SameAuthority(identity, context)
      case GroupMatchesAuthenticatedClientAuthority => ClientOfGroup(identity, context)
  }

  predicate Facts(clause: seq<Element>, identity: Option<Identity>, context: Context) {
    clause == [] || (Facts(clause[..|clause| - 1], identity, context) && Fact(clause[|clause| - 1], identity, context))
  }

  predicate SomeFacts(clauses: seq<seq<Element>>, identity: Option<Identity>, context: Context) {
    clauses != [] && (Facts(clauses[0], identity, context) || SomeFacts(clauses[1..], identity, context))
  }

  lemma FactsOfShortClauses(a: Element, b: Element, c: Element, identity: Option<Identity>, context: Context)
    ensures Facts([a], identity, context) <==> Fact(a, identity, context)
    ensures Facts([a, b], identity, context) <==> Fact(a, identity, context) && Fact(b, identity, context)
    ensures Facts([a, b, c], identity, context) <==>
            Fact(a, identity, context) && Fact(b, identity, context) && Fact(c, identity, context)
  {
    hide Fact;
    assert [a][..0] == [] && [a, b][..1] == [a] && [a, b, c][..2] == [a, b];
  }

  lemma SomeFactsOfShortLists(a: seq<Element>, b: seq<Element>, c: seq<Element>, identity: Option<Identity>, context: Context)
    ensures SomeFacts([a], identity, context) <==> Facts(a, identity, context)
    ensures SomeFacts([a, b], identity, context) <==> Facts(a, identity, context) || Facts(b, identity, context)
    ensures SomeFacts([a, b, c], identity, context) <==>
            Facts(a, identity, context) || Facts(b, identity, context) || Facts(c, identity, context)
  {
    hide Facts;
    forall x: seq<Element>
      ensures SomeFacts([x], identity, context) <==> Facts(x, identity, context)
    {
      assert [x][1..] == [] && !SomeFacts([], identity, context);
    }
    assert [a, b][1..] == [b] && [b, c][1..] == [c] && [a, b, c][1..] == [b, c];
  }

  /** What the requirements of a predicate come to. */
  lemma RequiredFacts(p: Predicate, identity: Option<Identity>, context: Context)
    ensures var es := Required(Check(p));
            |es| <= 2 && (Facts(es, identity, context) <==>
              && (|es| >= 1 ==> Fact(es[0], identity, context))
              && (|es| == 2 ==> Fact(es[1], identity, context)))
  {
    hide Fact, Facts;
    EmptyClause(identity, context);
    var es := Required(Check(p));
    if |es| >= 1 {
      FactsOfShortClauses(es[0], es[|es| - 1], es[0], identity, context);
      assert es == if |es| == 1 then [es[0]] else [es[0], es[|es| - 1]];
    }
  }

  predicate ConcernsGroup(p: Predicate) {
    || p.GroupFound? || p.GroupWritableByMembers? || p.GroupWritableByAuthority? || p.GroupReadableByWorld?
    || p.GroupReadableByMembers? || p.GroupJoinableByAuthority? || p.GroupCreatedByUser? || p.GroupHasUserAsMember?
    || p.GroupMatchesUserAuthority? || p.GroupMatchesAuthenticatedClientAuthority?
  }

  lemma GroupBodyIsFact(p: Predicate, identity: Option<Identity>, context: Context)
    requires ConcernsGroup(p)
    ensures Facts(Required(Check(p)), identity, context) ==>
              Body(p, identity, context) == Truth(Fact(Check(p), identity, context))
    ensures !Facts(Required(Check(p)), identity, context) ==> !Fact(Check(p), identity, context)
  {
    RequiredFacts(p, identity, context);
    hide Facts;
  }

  lemma OtherBodyIsFact(p: Predicate, identity: Option<Identity>, context: Context)
    requires !ConcernsGroup(p)
    ensures Facts(Required(Check(p)), identity, context) ==>
              Body(p, identity, context) == Truth(Fact(Check(p), identity, context))
    ensures !Facts(Required(Check(p)), identity, context) ==> !Fact(Check(p), identity, context)
  {
    RequiredFacts(p, identity, context);
    hide Facts, IsLms;
  }

  /** Given its requirements, a body computes its fact and does not raise. */
  lemma BodyIsFact(p: Predicate, identity: Option<Identity>, context: Context)
    ensures Facts(Required(Check(p)), identity, context) ==>
              Body(p, identity, context) == Truth(Fact(Check(p), identity, context))
    ensures !Facts(Required(Check(p)), identity, context) ==> !Fact(Check(p), identity, context)
  {
    hide Facts, Fact, Body, Required;
    if ConcernsGroup(p) {
      GroupBodyIsFact(p, identity, context);
    } else {
      OtherBodyIsFact(p, identity, context);
    }
  }

  lemma EmptyClause(identity: Option<Identity>, context: Context)
    ensures Facts([], identity, context)
  {
  }

  ghost predicate Grounded(clause: seq<Element>, answer: Element -> Outcome, identity: Option<Identity>, context: Context) {
    && (forall p: Predicate :: answer(Check(p)) == Body(p, identity, context))
    && (forall q: Permission :: Grant(q) in clause ==> answer(Grant(q)) == Truth(Policy(identity, context, q)))
  }

  lemma GrantIsPolicy(q: Permission, identity: Option<Identity>, context: Context)
    ensures Fact(Grant(q), identity, context) <==> Policy(identity, context, q)
  {
  }

  lemma {:induction false} NaiveIsFact(e: Element, answer: Element -> Outcome, identity: Option<Identity>, context: Context)
    requires Acyclic(Required, Height) && Grounded([e], answer, identity, context)
    ensures Naive(e, Required, answer, Height) == Truth(Fact(e, identity, context))
    decreases Height(e)
  {
    hide Body, Fact, Policy;
    match e
    case Grant(q) =>
      assert e in [e];
      GrantIsPolicy(q, identity, context);
    case Check(p) =>
      NaiveAllIsFacts(Required(e), answer, identity, context, Height(e));
      BodyIsFact(p, identity, context);
  }

  lemma {:induction false} NaiveAllIsFacts(clause: seq<Element>, answer: Element -> Outcome, identity: Option<Identity>,
      context: Context, bound: nat)
    requires Acyclic(Required, Height) && Below(clause, Height, bound) && Grounded(clause, answer, identity, context)
    ensures NaiveAll(clause, Required, answer, Height, bound) == Truth(Facts(clause, identity, context))
    decreases bound, |clause|
  {
    hide Body, Fact, Policy;
    if clause != [] {
      var last := |clause| - 1;
      assert clause[last] in clause;
      NaiveAllIsFacts(clause[..last], answer, identity, context, bound);
      NaiveIsFact(clause[last], answer, identity, context);
    }
  }

  lemma {:induction false} AnyIsSomeFacts(clauses: seq<seq<Element>>, answer: Element -> Outcome,
      identity: Option<Identity>, context: Context)
    requires forall i :: 0 <= i < |clauses| ==> Grounded(clauses[i], answer, identity, context)
    ensures Any(clauses, answer) == Truth(SomeFacts(clauses, identity, context))
  {
    hide Body, Fact, Policy;
    if clauses != [] {
      RequiredIsAcyclic();
      ExpansionKeepsTheMeaning(clauses[0], Required, answer, Height, MAX_HEIGHT);
      NaiveAllIsFacts(clauses[0], answer, identity, context, MAX_HEIGHT);
      AnyIsSomeFacts(clauses[1..], answer, identity, context);
    }
  }

  /** Evaluating the expanded map grants exactly what the policy says, for every identity,
      context and permission, and never raises. */
  lemma {:induction false} EvaluationIsThePolicy(identity: Option<Identity>, context: Context, permission: Permission)
    ensures IdentityPermits(identity, context, permission) == Truth(Policy(identity, context, permission))
    decreases Rank(permission)
  {
    hide Body, Fact, Policy;
    var clauses, answer := Clauses(permission), Answers(identity, context, Rank(permission));
    forall i | 0 <= i < |clauses|
      ensures Grounded(clauses[i], answer, identity, context)
    {
      forall q: Permission | Grant(q) in clauses[i]
        ensures answer(Grant(q)) == Truth(Policy(identity, context, q))
      {
        ReferencesLeadDown(permission, i, Grant(q));
        EvaluationIsThePolicy(identity, context, q);
      }
    }
    AnyIsSomeFacts(clauses, answer, identity, context);
    ClausesAreThePolicy(identity, context, permission);
  }

  predicate Unfolded(clause: seq<Element>, identity: Option<Identity>, context: Context)
    requires 1 <= |clause| <= 3
  {
    && Fact(clause[0], identity, context)
    && (|clause| > 1 ==> Fact(clause[1], identity, context))
    && (|clause| > 2 ==> Fact(clause[2], identity, context))
  }

  lemma ClauseFacts(clause: seq<Element>, identity: Option<Identity>, context: Context)
    requires 1 <= |clause| <= 3
    ensures Facts(clause, identity, context) <==> Unfolded(clause, identity, context)
  {
    hide Fact, Facts;
    FactsOfShortClauses(clause[0], clause[if |clause| > 1 then 1 else 0], clause[|clause| - 1], identity, context);
    assert clause == if |clause| == 1 then [clause[0]]
                     else if |clause| == 2 then [clause[0], clause[1]]
                     else [clause[0], clause[1], clause[2]];
  }

  predicate Short(clauses: seq<seq<Element>>) {
    1 <= |clauses| <= 3 && forall i :: 0 <= i < |clauses| ==> 1 <= |clauses[i]| <= 3
  }

  lemma ListFacts(clauses: seq<seq<Element>>, identity: Option<Identity>, context: Context)
    requires Short(clauses)
    ensures SomeFacts(clauses, identity, context) <==>
            || Unfolded(clauses[0], identity, context)
            || (|clauses| > 1 && Unfolded(clauses[1], identity, context))
            || (|clauses| > 2 && Unfolded(clauses[2], identity, context))
  {
    hide Facts, SomeFacts, Unfolded;
    var second := clauses[if |clauses| > 1 then 1 else 0];
    SomeFactsOfShortLists(clauses[0], second, clauses[|clauses| - 1], identity, context);
    assert clauses == if |clauses| == 1 then [clauses[0]]
                      else if |clauses| == 2 then [clauses[0], clauses[1]]
                      else [clauses[0], clauses[1], clauses[2]];
    ClauseFacts(clauses[0], identity, context);
    ClauseFacts(second, identity, context);
    ClauseFacts(clauses[|clauses| - 1], identity, context);
  }

  lemma ReadingClauses(identity: Option<Identity>, context: Context, permission: Permission)
    requires permission.GroupRead? || permission.GroupFlag?
    ensures SomeFacts(Clauses(permission), identity, context) <==> Policy(identity, context, permission)
  {
    hide SomeFacts, IsMember, Readable, ClientOfGroup;
    ListFacts(Clauses(permission), identity, context);
  }

  lemma WritingClauses(identity: Option<Identity>, context: Context)
    ensures SomeFacts(Clauses(GroupWrite), identity, context) <==> Policy(identity, context, GroupWrite)
  {
    hide SomeFacts, IsMember, Writable, SameAuthority;
    ListFacts(Clauses(GroupWrite), identity, context);
  }

  lemma JoiningClauses(identity: Option<Identity>, context: Context)
    ensures SomeFacts(Clauses(GroupJoin), identity, context) <==> Policy(identity, context, GroupJoin)
  {
    hide SomeFacts, SameAuthority;
    ListFacts(Clauses(GroupJoin), identity, context);
  }

  lemma EditingClauses(identity: Option<Identity>, context: Context)
    ensures SomeFacts(Clauses(GroupEdit), identity, context) <==> Policy(identity, context, GroupEdit)
  {
    hide SomeFacts, IsCreator, ClientOfGroup;
    ListFacts(Clauses(GroupEdit), identity, context);
  }

  lemma AnnotationReadingClauses(identity: Option<Identity>, context: Context, permission: Permission)
    requires permission.AnnotationRead? || permission.AnnotationFlag?
    ensures SomeFacts(Clauses(permission), identity, context) <==> Policy(identity, context, permission)
  {
    hide SomeFacts, MayReadGroup, MayFlagInGroup, Owns;
    ListFacts(Clauses(permission), identity, context);
  }

  lemma AnnotationClauses(identity: Option<Identity>, context: Context, permission: Permission)
    requires permission.AnnotationReadRealtimeUpdates? || permission.AnnotationModerate?
          || permission.AnnotationUpdate? || permission.AnnotationDelete?
    ensures SomeFacts(Clauses(permission), identity, context) <==> Policy(identity, context, permission)
  {
    hide SomeFacts, MayReadGroup, MayFlagInGroup, Owns, IsCreator;
    ListFacts(Clauses(permission), identity, context);
  }

  lemma OtherClauses(identity: Option<Identity>, context: Context, permission: Permission)
    requires permission.GroupCreate? || permission.GroupMemberAdd? || permission.GroupModerate? || permission.AnnotationCreate?
          || permission.AdminPageHighRisk? || permission.AdminPageLowRisk? || permission.UserCreate? || permission.UserUpdate?
          || permission.UserRead? || permission.ApiBulkAction? || permission.ProfileUpdate?
    ensures SomeFacts(Clauses(permission), identity, context) <==> Policy(identity, context, permission)
  {
    hide SomeFacts, IsLms;
    ListFacts(Clauses(permission), identity, context);
  }

  lemma ClausesAreThePolicy(identity: Option<Identity>, context: Context, permission: Permission)
    ensures SomeFacts(Clauses(permission), identity, context) <==> Policy(identity, context, permission)
  {
    hide Clauses, Policy, SomeFacts;
    match permission
    case Unlisted(_) => NoClauses(identity, context, permission);
    case GroupRead | GroupFlag => ReadingClauses(identity, context, permission);
    case GroupWrite => WritingClauses(identity, context);
    case GroupJoin => JoiningClauses(identity, context);
    case GroupEdit => EditingClauses(identity, context);
    case AnnotationRead | AnnotationFlag => AnnotationReadingClauses(identity, context, permission);
    case AnnotationReadRealtimeUpdates | AnnotationModerate | AnnotationUpdate | AnnotationDelete =>
      AnnotationClauses(identity, context, permission);
    case _ => OtherClauses(identity, context, permission);
  }

  lemma NoClauses(identity: Option<Identity>, context: Context, permission: Permission)
    requires permission.Unlisted?
    ensures SomeFacts(Clauses(permission), identity, context) <==> Policy(identity, context, permission)
  {
  }

  // ----- Consequences -----

  function Undeleted(context: Context): Context {
    if context.annotation.Some? then context.(annotation := Some(context.annotation.value.(deleted := false))) else context
  }

  /** A deleted annotation is out of everyone's reach, but for notifications about it, which
      go to whoever was notified before the deletion. */
  lemma DeletionRevokes(identity: Option<Identity>, context: Context, permission: Permission)
    requires !Live(context)
    requires permission in {AnnotationRead, AnnotationFlag, AnnotationModerate, AnnotationUpdate, AnnotationDelete}
    ensures IdentityPermits(identity, context, permission) == Falsy
    ensures IdentityPermits(identity, context, AnnotationReadRealtimeUpdates)
            == IdentityPermits(identity, Undeleted(context), AnnotationReadRealtimeUpdates)
  {
    hide IdentityPermits;
    EvaluationIsThePolicy(identity, context, permission);
    EvaluationIsThePolicy(identity, context, AnnotationReadRealtimeUpdates);
    EvaluationIsThePolicy(identity, Undeleted(context), AnnotationReadRealtimeUpdates);
  }

  /** The creator of an annotation may update and delete it exactly while it is live. */
  lemma CreatorsEditWhileLive(identity: Option<Identity>, context: Context)
    requires Owns(identity, context)
    ensures IdentityPermits(identity, context, AnnotationUpdate) == Truth(!context.annotation.value.deleted)
    ensures IdentityPermits(identity, context, AnnotationDelete) == Truth(!context.annotation.value.deleted)
  {
    hide IdentityPermits;
    EvaluationIsThePolicy(identity, context, AnnotationUpdate);
    EvaluationIsThePolicy(identity, context, AnnotationDelete);
  }

  /** Seen only through a client of the group's authority. */
  predicate SeesThroughClientOnly(identity: Option<Identity>, context: Context) {
    && ClientOfGroup(identity, context)
    && !Readable(context, World)
    && !(Readable(context, OnlyMembers) && IsMember(identity, context))
  }

  /** Whoever may flag may read. That anyone logged in may flag what they can see is true
      exactly of those who do not see it through a client only. */
  lemma FlaggingIsForReaders(identity: Option<Identity>, context: Context)
    requires identity.Some?
    ensures IdentityPermits(identity, context, GroupFlag) == Truthy ==> IdentityPermits(identity, context, GroupRead) == Truthy
    ensures (IdentityPermits(identity, context, GroupRead) == Truthy ==> IdentityPermits(identity, context, GroupFlag) == Truthy)
            <==> !SeesThroughClientOnly(identity, context)
  {
    hide IdentityPermits, Readable, ClientOfGroup, IsMember;
    EvaluationIsThePolicy(identity, context, GroupFlag);
    EvaluationIsThePolicy(identity, context, GroupRead);
  }

  /** A user forwarded by the client of a group's authority who is not a member of it. */
  lemma ReaderWhoMayNotFlag()
    ensures exists identity: Option<Identity>, context: Context ::
              && IsUser(identity)
              && IdentityPermits(identity, context, GroupRead) == Truthy
              && IdentityPermits(identity, context, GroupFlag) == Falsy
  {
    hide IdentityPermits;
    var user := LongLivedUser(1, "acct:seanh@example.com", "example.com", [], false, false);
    var identity := Some(Identity(Some(user), Some(AuthClient("example.com"))));
    var context := Context(None, None, Some(Group(7, "example.com", None, Nobody, OnlyMembers, OnlyMembers)));
    EvaluationIsThePolicy(identity, context, GroupFlag);
    EvaluationIsThePolicy(identity, context, GroupRead);
  }
}
