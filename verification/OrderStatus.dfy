/** The order status machine: the transition table, its guard, and who may drive it. */
module OrderStatus {
  import opened Types

  datatype Actor = Customer | RestaurantMember | Agent | System | Admin

  datatype Rule = Rule(actors: set<Actor>, stamp: Option<Stamp>, requiresReason: bool)

  /** The table `from -> to -> rule`; None is a forbidden transition. */
  function TransitionRule(from: Status, to: Status): Option<Rule> {
    match (from, to)
    case (PendingPayment, Placed) => Some(Rule({System}, None, false))
    case (PendingPayment, Cancelled) => Some(Rule({Customer, System}, Some(CancelledAt), false))
    case (Placed, Accepted) => Some(Rule({RestaurantMember}, Some(AcceptedAt), false))
    case (Placed, Rejected) => Some(Rule({RestaurantMember}, Some(RejectedAt), true))
    case (Placed, Cancelled) => Some(Rule({Customer, RestaurantMember, System, Admin}, Some(CancelledAt), true))
    case (Accepted, Preparing) => Some(Rule({RestaurantMember}, None, false))
    case (Accepted, Cancelled) => Some(Rule({RestaurantMember, Admin}, Some(CancelledAt), true))
    case (Preparing, Ready) => Some(Rule({RestaurantMember}, Some(ReadyAt), false))
    case (Preparing, Cancelled) => Some(Rule({RestaurantMember, Admin}, Some(CancelledAt), true))
    case (Ready, Assigned) => Some(Rule({System}, Some(AssignedAt), false))
    case (Ready, Cancelled) => Some(Rule({RestaurantMember, Admin}, Some(CancelledAt), true))
    case (Assigned, Picked) => Some(Rule({Agent}, Some(PickedAt), false))
    case (Assigned, Cancelled) => Some(Rule({Admin}, Some(CancelledAt), true))
    case (Picked, Delivered) => Some(Rule({Agent}, Some(DeliveredAt), false))
    case _ => None
  }

  predicate IsEdge(from: Status, to: Status) {
    TransitionRule(from, to).Some?
  }

  predicate Terminal(s: Status) {
    s == Rejected || s == Delivered || s == Cancelled
  }

  const CUSTOMER_CANCEL_WINDOW_MS: int := 60 * 1000

  datatype TransitionError = InvalidStatusTransition | ReasonRequired | CancellationWindowExpired

  datatype TransitionResult = Allowed(stamp: Option<Stamp>) | Refused(error: TransitionError)

  /** Guard of every actor-driven status change; `hasReason` means a reason that is not blank. */
  function AssertTransition(
    from: Status, to: Status, actor: Actor, hasReason: bool,
    placedAt: Time, acceptedAt: Option<Time>, now: Time
  ): (r: TransitionResult)
    ensures r.Allowed? ==> IsEdge(from, to) && !Terminal(from)
    ensures r.Allowed? && actor == Customer && from == Placed
            ==> acceptedAt.None? && now <= placedAt + CUSTOMER_CANCEL_WINDOW_MS
  {
    match TransitionRule(from, to)
    case None => Refused(InvalidStatusTransition)
    case Some(rule) =>
      if actor !in rule.actors then Refused(InvalidStatusTransition)
      else if rule.requiresReason && !hasReason then Refused(ReasonRequired)
      else if actor == Customer && to == Cancelled && from == Placed
              && (acceptedAt.Some? || now - placedAt > CUSTOMER_CANCEL_WINDOW_MS) then
        Refused(CancellationWindowExpired)
      else Allowed(rule.stamp)
  }

  /** The same guard read actor by actor: what each may do, and nothing else. */
  lemma WhoMayDrive(from: Status, to: Status, actor: Actor, hasReason: bool, placedAt: Time, acceptedAt: Option<Time>,
      now: Time)
    ensures AssertTransition(from, to, actor, hasReason, placedAt, acceptedAt, now).Allowed? <==>
              match actor
              case Customer =>
                && to == Cancelled
                && (from == PendingPayment
                    || (from == Placed && hasReason && acceptedAt.None? && now <= placedAt + CUSTOMER_CANCEL_WINDOW_MS))
              case RestaurantMember =>
                || (from == Placed && (to == Accepted || (to == Rejected && hasReason)))
                || (from == Accepted && to == Preparing)
                || (from == Preparing && to == Ready)
                || (to == Cancelled && hasReason && from in {Placed, Accepted, Preparing, Ready})
              case Agent => (from == Assigned && to == Picked) || (from == Picked && to == Delivered)
              case System =>
                || (from == PendingPayment && (to == Placed || to == Cancelled))
                || (from == Placed && to == Cancelled && hasReason)
                || (from == Ready && to == Assigned)
              case Admin => to == Cancelled && hasReason && from in {Placed, Accepted, Preparing, Ready, Assigned}
  {
  }

  /** Whether a person of this kind may take this edge at all, given a reason. */
  predicate NeedsReason(from: Status, to: Status, actor: Actor) {
    || (from == Placed && to == Rejected && actor == RestaurantMember)
    || (from == Placed && to == Cancelled && actor in {Customer, RestaurantMember, System, Admin})
    || (from in {Accepted, Preparing, Ready} && to == Cancelled && actor in {RestaurantMember, Admin})
    || (from == Assigned && to == Cancelled && actor == Admin)
  }

  /** Which error a refusal is: the reason is asked for before the customer's window. */
  lemma WhyRefused(from: Status, to: Status, actor: Actor, hasReason: bool, placedAt: Time, acceptedAt: Option<Time>,
      now: Time)
    ensures var r := AssertTransition(from, to, actor, hasReason, placedAt, acceptedAt, now);
            && (r == Refused(ReasonRequired) <==> NeedsReason(from, to, actor) && !hasReason)
            && (r == Refused(CancellationWindowExpired) <==>
                  && actor == Customer && from == Placed && to == Cancelled && hasReason
                  && (acceptedAt.Some? || now > placedAt + 60000))
  {
  }

  datatype Role =
    | SystemAdmin
    | DeliveryAgent
    | RestaurantUser(restaurant: RestaurantId, isOwner: bool, branches: seq<BranchId>)
    | OtherRole

  datatype Caller = Caller(userId: UserId, role: Role)

  /** Which actor class a caller counts as for one order; None is UnAuthorised. */
  function ResolveStatusActor(c: Caller, ord: Order): (a: Option<Actor>)
    ensures a != Some(System)
    ensures a == Some(Agent) ==> ord.agent == Some(c.userId)
    ensures a == Some(Customer) ==> ord.customer == c.userId
  {
    if c.role.SystemAdmin? then Some(Admin)
    else if c.role.DeliveryAgent? && Some(c.userId) == ord.agent then Some(Agent)
    else if c.role.RestaurantUser? then
      if c.role.restaurant != ord.restaurant then None
      else if !c.role.isOwner && ord.branch !in c.role.branches then None
      else Some(RestaurantMember)
    else if c.userId == ord.customer then Some(Customer)
    else None
  }

  /** A restaurant user never counts as the customer, nor an agent of another order as its agent. */
  lemma WhoCounts(c: Caller, ord: Order)
    ensures var actor := ResolveStatusActor(c, ord);
            && (actor == Some(Admin) <==> c.role == SystemAdmin)
            && (actor == Some(Agent) <==> c.role == DeliveryAgent && ord.agent == Some(c.userId))
            && (actor == Some(RestaurantMember) <==>
                  && c.role.RestaurantUser? && c.role.restaurant == ord.restaurant
                  && (c.role.isOwner || ord.branch in c.role.branches))
            && (actor == Some(Customer) <==>
                  && c.userId == ord.customer
                  && (c.role == OtherRole || (c.role == DeliveryAgent && ord.agent != Some(c.userId))))
            && actor != Some(System)
  {
  }

  /** How far along an order is; every edge of the table goes up, a release goes down by one. */
  function Rank(s: Status): nat {
    match s
    case PendingPayment => 0
    case Placed => 1
    case Accepted => 2
    case Preparing => 3
    case Ready => 4
    case Assigned => 5
    case Picked => 6
    case Delivered => 7
    case Rejected => 7
    case Cancelled => 7
  }

  /** The table has no cycle, and exactly the terminal statuses have no way out. */
  lemma TableIsAcyclic(from: Status, to: Status)
    ensures IsEdge(from, to) ==> Rank(from) < Rank(to)
    ensures Terminal(from) <==> forall next :: !IsEdge(from, next)
  {
    if !Terminal(from) {
      assert IsEdge(from, if from == Picked then Delivered else Cancelled);
    }
  }
}
