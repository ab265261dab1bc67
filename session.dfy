/** What signing up and signing in do to the counters. The authentication
    service and the document store are not modelled: their answers are
    inputs here, and the record sign-up writes is an output. */
module Session {
  import opened Wrappers
  import opened TapEngine

  /** Counters of a freshly created account. */
  const StartPoints: int := 0
  const StartEnergy: int := 2532

  /** A user document as read back from the store. A field is `None` when it is
      missing or null. */
  datatype StoredRecord = StoredRecord(email: Option<string>, points: Option<int>, energy: Option<int>)

  /** What reading the user document yields. */
  datatype Fetch = FetchFailed | NoDocument | Document(record: StoredRecord)

  /** JavaScript truthiness of a stored number: missing, null and 0 are falsy. */
  predicate Truthy(v: Option<int>) {
    v.Some? && v.value != 0
  }

  /** The value of `v || d` for a stored number `v`. */
  function OrDefault(v: Option<int>, d: int): (r: int)
    ensures Truthy(v) ==> r == v.value
    ensures !Truthy(v) ==> r == d
    ensures r == d || v == Some(r)
  {
    if v.Some? && v.value != 0 then v.value else d
  }

  /** The document sign-up creates for a new account. */
  function CreatedRecord(email: Option<string>): (r: StoredRecord)
    ensures r.email == email
    ensures r.points == Some(StartPoints) && r.energy == Some(StartEnergy)
  {
    StoredRecord(email, Some(0), Some(2532))
  }

  /** The counters after a successful sign-up; the markers are untouched. */
  function SignedUp(g: Game): (r: Game)
    ensures r.points == StartPoints && r.energy == StartEnergy
    ensures r.clicks == g.clicks
    ensures EnergyInRange(r.energy)
  {
    g.(points := 0, energy := 2532)
  }

  /** The counters after sign-in read the user document: a present document
      sets `points` to `points || 0` and `energy` to `energy || 2532`; a missing
      document or a failed read leaves them as they were. */
  function Loaded(g: Game, f: Fetch): (r: Game)
    ensures r.clicks == g.clicks
    ensures !f.Document? ==> r == g
    ensures f.Document? ==>
              && r.points == (if Truthy(f.record.points) then f.record.points.value else 0)
              && r.energy == (if Truthy(f.record.energy) then f.record.energy.value else StartEnergy)
  {
    match f
    case Document(rec) => g.(points := OrDefault(rec.points, 0), energy := OrDefault(rec.energy, 2532))
    case _ => g
  }

  /** Reading back the document sign-up created gives the counters sign-up set. */
  lemma SignUpThenSignIn(g: Game, h: Game, email: Option<string>)
    ensures Loaded(h, Document(CreatedRecord(email))) == SignedUp(g).(clicks := h.clicks)
  {
  }

  /** A stored energy of 0 is falsy and loads as the sign-up energy, while a
      nonzero stored energy loads as it is. */
  lemma ZeroEnergyLoadsAsDefault(g: Game, rec: StoredRecord)
    ensures rec.energy == Some(0) ==> Loaded(g, Document(rec)).energy == StartEnergy
    ensures rec.energy.Some? && rec.energy.value != 0 ==> Loaded(g, Document(rec)).energy == rec.energy.value
  {
  }

  /** Sign-in keeps the energy invariant exactly when the stored energy, after
      defaulting, is inside it: missing and zero values default into range. */
  lemma LoadedInRange(g: Game, f: Fetch)
    requires EnergyInRange(g.energy)
    ensures EnergyInRange(Loaded(g, f).energy) <==>
              (f.Document? && Truthy(f.record.energy) ==> EnergyInRange(f.record.energy.value))
  {
  }
}
