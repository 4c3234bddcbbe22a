/** Normalized session events and the entities the reducer keeps about them. */
module SessionTypes {
  import opened Basics

  // An identity is 1 to 256 display-safe bytes compared bytewise. Such strings form a finite
  // total order, and the model keeps an identity as its rank in that order.
  type ProviderId = nat
  type SessionId = nat
  type TurnId = nat
  type EventId = nat

  /** A session is known by its provider and its identity within the provider. */
  datatype SessionKey = SessionKey(provider: ProviderId, session: SessionId) {
    predicate Before(other: SessionKey) {
      provider < other.provider || (provider == other.provider && session < other.session)
    }
  }

  /** The identity under which deliveries of an event are recognised as the same. */
  datatype EventKey = EventKey(provider: ProviderId, event: EventId)

  /** The position of an event: its time, then its identity. */
  datatype Stamp = Stamp(at: u64, event: EventId) {
    predicate Before(other: Stamp) {
      at < other.at || (at == other.at && event < other.event)
    }

    predicate AtMost(other: Stamp) {
      this == other || Before(other)
    }
  }

  /** Card identities are an injective digest of provider and event identity. */
  datatype NotificationId = NotificationId(provider: ProviderId, event: EventId) {
    predicate Before(other: NotificationId) {
      provider < other.provider || (provider == other.provider && event < other.event)
    }
  }

  datatype EventKind =
    | SessionStarted
    | TurnStarted
    | AttentionRequired
    | AttentionResolved
    | TurnCompleted
    | TurnFailed
    | SessionEnded
  {
    predicate IsSessionScoped() { SessionStarted? || SessionEnded? }

    predicate IsTerminal() { TurnCompleted? || TurnFailed? }

    predicate StartsActivity() { SessionStarted? || TurnStarted? || AttentionResolved? }
  }

  datatype Event = Event(
    id: EventId,
    provider: ProviderId,
    kind: EventKind,
    session: SessionId,
    turn: Option<TurnId>,
    occurredAt: u64,
    project: Option<string>,
    summary: Option<string>)
  {
    /** Normalization hands over a turn event only with a turn identity. */
    predicate Valid() { kind.IsSessionScoped() || turn.Some? }

    predicate IsTurnEvent() { Valid() && !kind.IsSessionScoped() }

    function Key(): EventKey { EventKey(provider, id) }

    function Owner(): SessionKey { SessionKey(provider, session) }

    function Order(): Stamp { Stamp(occurredAt, id) }

    function CardId(): NotificationId { NotificationId(provider, id) }
  }

  datatype NotificationKind = Attention | Completion | Failure

  datatype NotificationState = Unread | Acknowledged | Resolved

  datatype SessionPhase = Idle | Active | Attention | Completed | Failed | Ended {
    predicate IsTerminal() { Completed? || Failed? }
  }

  /** What the pet shows, from weakest to strongest. */
  datatype PresentationState = Idle | ActivityReminder | Review | Failed | Waiting {
    function Rank(): nat {
      match this
      case Idle => 0
      case ActivityReminder => 1
      case Review => 2
      case Failed => 3
      case Waiting => 4
    }
  }

  /**
   A card. `incarnation` is the allocation identity of the card, which survives copying but not
   serialization; two cards with equal contents may differ in it.
   */
  datatype Notification = Notification(
    incarnation: nat,
    title: Option<string>,
    id: NotificationId,
    provider: ProviderId,
    event: EventId,
    session: SessionId,
    turn: Option<TurnId>,
    kind: NotificationKind,
    state: NotificationState,
    occurredAt: u64,
    project: Option<string>,
    summary: Option<string>)
  {
    function Owner(): SessionKey { SessionKey(provider, session) }

    function Order(): Stamp { Stamp(occurredAt, event) }

    predicate IsUnresolvedAttention() { kind.Attention? && !state.Resolved? }

    function Priority(): nat {
      if kind.Attention? && !state.Resolved? then 3
      else if kind.Failure? && state.Unread? then 2
      else if kind.Completion? && state.Unread? then 1
      else 0
    }
  }

  predicate IsControl(c: char) {
    c as int < 0x20 || 0x7F <= c as int <= 0x9F
  }

  predicate IsTitle(title: string) {
    title != [] && |title| <= 256 && forall i :: 0 <= i < |title| ==> !IsControl(title[i])
  }

  datatype TurnRecord = TurnRecord(phase: SessionPhase, updatedAt: u64, lastEvent: EventId) {
    function Order(): Stamp { Stamp(updatedAt, lastEvent) }
  }

  datatype SessionRecord = SessionRecord(
    provider: ProviderId,
    id: SessionId,
    current: Option<TurnId>,
    turns: map<TurnId, TurnRecord>,
    retired: seq<TurnId>,
    project: Option<string>,
    updatedAt: u64,
    lastEvent: EventId,
    ended: bool)
  {
    function Key(): SessionKey { SessionKey(provider, id) }

    function Order(): Stamp { Stamp(updatedAt, lastEvent) }

    function Phase(): SessionPhase {
      if ended then Ended
      else if current.Some? && current.value in turns then turns[current.value].phase
      else SessionPhase.Idle
    }
  }

  function NewSession(event: Event): SessionRecord {
    SessionRecord(event.provider, event.session, None, map[], [], event.project,
                  event.occurredAt, event.id, false)
  }
}
