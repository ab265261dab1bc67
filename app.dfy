/** The game component: the state its hooks hold and the handlers that change
    it. Each handler is proved against the transition of `TapEngine` or
    `Session` it performs. Calls to the authentication service and the
    document store are replaced by their outcome, passed in by the caller, and
    by the write request the handler issues, passed out. */
module AppState {
  import opened Wrappers
  import opened TapEngine
  import opened Session

  /** The signed-in account: its id keys the user document. */
  datatype User = User(uid: string, email: Option<string>)

  /** The answer of the authentication service. */
  datatype AuthResult = Authenticated(user: User) | AuthFailed

  /** Whether a write to the document store resolved or threw. */
  datatype WriteOutcome = Written | WriteFailed

  /** A write the component sends to the document store. */
  datatype StoreWrite =
    | UpdateCounters(uid: string, points: int, energy: int)
    | CreateDocument(uid: string, record: StoredRecord)

  class App {
    var user: Option<User>
    var points: int
    var energy: int
    var clicks: seq<Click>

    /** The play state the handlers act on. */
    ghost function State(): Game
      reads this
    {
      Game(points, energy, clicks)
    }

    /** The initial hook values: signed out, no points, no energy, no markers. */
    constructor ()
      ensures user == None
      ensures State() == Game(0, 0, [])
      ensures EnergyInRange(energy)
    {
      user := None;
      points := 0;
      energy := 0;
      clicks := [];
    }

    /** A tap on the coin at `(x, y)` with timestamp `id`. A rejected tap
        returns before anything else. Otherwise, when signed in, the new
        counters are sent to the store first, and a failed write aborts the
        handler before any state is set. */
    method HandleClick(id: int, x: int, y: int, outcome: WriteOutcome) returns (sent: Option<StoreWrite>)
      modifies this
      ensures user == old(user)
      ensures sent == if old(energy) < EnergyPerTap || old(user).None? then None
                      else Some(UpdateCounters(old(user).value.uid, old(points) + PointsPerTap, old(energy) - EnergyPerTap))
      ensures State() == if old(user).Some? && outcome == WriteFailed then old(State())
                         else Tap(old(State()), id, x, y)
      ensures sent.Some? && outcome == Written ==>
                sent.value.points == points && sent.value.energy == energy
      ensures EnergyInRange(old(energy)) ==> EnergyInRange(energy)
    {
      sent := None;
      if energy - EnergyPerTap < 0 {
        return;
      }
      var newPoints := points + PointsPerTap;
      var newEnergy := if energy - EnergyPerTap < 0 then 0 else energy - EnergyPerTap;
      if user.Some? {
        sent := Some(UpdateCounters(user.value.uid, newPoints, newEnergy));
        if outcome == WriteFailed {
          return;
        }
      }
      points := newPoints;
      energy := newEnergy;
      clicks := clicks + [Click(id, x, y)];
    }

    /** One firing of the regeneration interval. */
    method RegenerateTick()
      modifies this`energy
      ensures energy == Regenerate(old(energy))
      ensures State() == Step(old(State()), Tick)
      ensures EnergyInRange(old(energy)) ==> EnergyInRange(energy)
    {
      energy := if energy + 1 <= EnergyMax then energy + 1 else EnergyMax;
    }

    /** The end of the float animation of marker `id`. */
    method HandleAnimationEnd(id: int)
      modifies this`clicks
      ensures clicks == Expire(old(clicks), id)
      ensures State() == Step(old(State()), AnimationEnd(id))
    {
      clicks := Expire(clicks, id);
    }

    /** Sign-up: when the account is created and its document is stored, the
        user is signed in with the starting counters. Either failure is caught
        and leaves the component as it was. */
    method HandleSignUp(auth: AuthResult, outcome: WriteOutcome) returns (sent: Option<StoreWrite>)
      modifies this
      ensures sent == if auth.AuthFailed? then None
                      else Some(CreateDocument(auth.user.uid, CreatedRecord(auth.user.email)))
      ensures if auth.Authenticated? && outcome == Written
              then user == Some(auth.user) && State() == SignedUp(old(State()))
              else user == old(user) && State() == old(State())
      ensures EnergyInRange(old(energy)) ==> EnergyInRange(energy)
    {
      sent := None;
      if auth.AuthFailed? {
        return;
      }
      var created := auth.user;
      sent := Some(CreateDocument(created.uid, CreatedRecord(created.email)));
      if outcome == WriteFailed {
        return;
      }
      user := Some(created);
      points := StartPoints;
      energy := StartEnergy;
    }

    /** Sign-in: once authenticated the user is set, and then the user
        document, if it can be read and exists, sets the counters. A failed
        read is caught after the user was set. */
    method HandleSignIn(auth: AuthResult, fetched: Fetch)
      modifies this
      ensures user == if auth.Authenticated? then Some(auth.user) else old(user)
      ensures State() == if auth.Authenticated? then Loaded(old(State()), fetched) else old(State())
    {
      if auth.AuthFailed? {
        return;
      }
      user := Some(auth.user);
      match fetched
      case Document(rec) =>
        points := OrDefault(rec.points, 0);
        energy := OrDefault(rec.energy, StartEnergy);
      case _ =>
    }
  }
}
