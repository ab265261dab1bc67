# Notcoin-style tap game: the tap/energy state machine

This project models the game logic of the single React component `App`
(`src/App.tsx`) of a "tap-to-earn" web game. The player taps a coin. Each
accepted tap earns 12 points, spends 12 energy and shows a floating "+12"
marker. An interval timer adds one energy per tick, up to 6500. A marker is
removed when its float animation ends. Signing up creates a user document with
0 points and 2532 energy. Signing in loads the counters from that document,
using JavaScript `||` defaulting.

Layout:

- `wrappers.dfy`, module `Wrappers`: the `Option` type.
- `tap_engine.dfy`, module `TapEngine`: these are values. It holds the state
  `Game(points, energy, clicks)` and the transitions `Tap`, `Regenerate` and
  `Expire`. It also has an event type for any interleaving of them, with
  `Step` and `Run`, and its lemmas.
- `session.dfy`, module `Session`: the record sign-up writes, `SignedUp`, the
  JavaScript `||` defaulting `OrDefault`, and sign-in loading `Loaded`.
- `app.dfy`, module `AppState`: class `App`. Its fields are the component's
  hook state (`user`, `points`, `energy`, `clicks`). Its methods mirror the
  handlers. Each method is proved against the `TapEngine` or `Session`
  function that specifies it.
- `scenarios.dfy`, module `Scenarios`: a client that signs up and taps five
  times.

The authentication service and the document store are not modelled. The
caller supplies their answers as parameters: an `AuthResult`, a `Fetch` for
`getDoc`, and a `WriteOutcome` for `setDoc`/`updateDoc`. Each handler returns
the write it sends to the store as a `StoreWrite`. The tap's id
(`Date.now()`) and position (from `getBoundingClientRect`) are plain integers
chosen by the caller.

What the source does, and the model follows:

- A tap is rejected when `energy - 12 < 0`, and then nothing changes.
- The `< 0 ? 0` clamp on the new energy can never fire under that guard
  (`Drained`).
- When a user is signed in, `updateDoc` is awaited before any state is set.
  If it throws, the tap changes nothing.
- In sign-in, `user` is set before the document is read. So a failed read, or
  a missing document, leaves the user signed in with the old counters.
- In sign-up, a failure in either call is caught, and then nothing is set.
- `points || 0` and `energy || 2532` treat a stored 0 like a missing value,
  so a stored energy of 0 loads as 2532 (`ZeroEnergyLoadsAsDefault`).
- The component starts with energy 0 (`useState(0)`), not 2532.
- `0 <= energy <= 6500` is not an invariant of the component as a whole:
  sign-in loads whatever energy is stored. It is preserved by taps, ticks and
  animation ends in any order (`RunInvariant`). Sign-up establishes it. Sign-in
  keeps it exactly when the loaded value lies in that range (`LoadedInRange`).

## Model

| member | source | states |
|---|---|---|
| TapEngine.Drained | src/App.tsx:36 | the clamped new energy is never negative, equals `energy - 12` whenever the tap guard passes; the `< 0 ? 0` clamp fires only on the guard's reject side, where it gives 0 |
| TapEngine.Tap | src/App.tsx:27-49 | energy below 12 leaves points, energy and markers unchanged; otherwise points +12, energy -12, and exactly one marker `{id, x, y}` appended after the old markers, which stay unchanged and in order; the energy range is kept |
| TapEngine.Regenerate | src/App.tsx:21 | a tick never exceeds 6500, adds one below the cap, yields exactly 6500 at or above it, and keeps the energy range |
| TapEngine.Expire | src/App.tsx:51-53 | a marker survives exactly when it was present and its id differs from the expired id; never longer than before |
| TapEngine.ExpireAppend | src/App.tsx:52 | the filter splits over concatenation, so survivors keep their relative order |
| TapEngine.ExpireAbsent | src/App.tsx:52 | expiring an id that no marker has is a no-op |
| TapEngine.ExpireSingle | src/App.tsx:52 | on a single marker the filter keeps it exactly when its id differs |
| TapEngine.ExpireIdempotent | src/App.tsx:51-53 | expiring the same id twice equals expiring it once |
| TapEngine.ExpireCommutes | src/App.tsx:51-53 | the ends of two animations can be handled in either order |
| TapEngine.TapThenExpire | src/App.tsx:28-52 | for every tap, accepted or rejected, the end of the animation of the tap's id removes the tap's marker if one was added: the result equals expiring that id in the markers from before the tap |
| TapEngine.Step | src/App.tsx:21-53 | any single tap, tick or animation end keeps the energy range, raises points by 0 or 12, and adds at most one marker |
| TapEngine.RunInvariant | src/App.tsx:21-48 | any sequence of taps, ticks and animation ends that starts with energy in `[0, 6500]` ends there; points never decrease, grow by a multiple of 12, and at most one marker appears per event |
| TapEngine.TicksSaturate | src/App.tsx:21 | n ticks from inside the range give `min(energy + n, 6500)` and change neither points nor markers |
| TapEngine.TicksFrom6490 | src/App.tsx:21 | twenty ticks from 6490 stop at 6500 |
| TapEngine.FiveTaps | src/App.tsx:27-49 | from 0 points and 2532 energy, five taps give 60 points, 2472 energy and the five markers in tap order |
| TapEngine.TapWithSixEnergy | src/App.tsx:28-30 | with 6 energy a tap changes nothing |
| Session.OrDefault | src/App.tsx:84-85 | `v \|\| d` is the stored value when it is present and nonzero, and the default otherwise (missing, null or 0) |
| Session.CreatedRecord | src/App.tsx:60-64 | the document sign-up creates holds the account's email, 0 points and 2532 energy |
| Session.SignedUp | src/App.tsx:68-69 | after sign-up, points are 0 and energy is 2532, which lies in the energy range; the markers are untouched |
| Session.Loaded | src/App.tsx:81-88 | a present document sets points to the stored points or 0 and energy to the stored energy or 2532, by truthiness; a missing document or failed read changes nothing |
| Session.SignUpThenSignIn | src/App.tsx:60-85 | reading back the document sign-up created yields the counters sign-up set |
| Session.ZeroEnergyLoadsAsDefault | src/App.tsx:85 | a stored energy of 0 loads as 2532; a nonzero stored energy loads unchanged |
| Session.LoadedInRange | src/App.tsx:82-85 | starting from an in-range energy, sign-in ends in range exactly when the stored energy is falsy or in `[0, 6500]` |
| AppState.App.constructor | src/App.tsx:12-15 | the component starts signed out with 0 points, 0 energy and no markers |
| AppState.App.HandleClick | src/App.tsx:27-49 | the new state is `Tap` of the old one, except that a failed store write while signed in leaves it unchanged; the write sent carries the new counters exactly when the tap passes the guard and a user is signed in |
| AppState.App.RegenerateTick | src/App.tsx:19-22 | energy becomes `Regenerate` of the old energy, and nothing else changes |
| AppState.App.HandleAnimationEnd | src/App.tsx:51-53 | markers become `Expire` of the old markers, and nothing else changes |
| AppState.App.HandleSignUp | src/App.tsx:55-73 | after a successful account creation the document-creation write is sent; only if it also succeeds is the user signed in with `SignedUp` counters; otherwise nothing changes |
| AppState.App.HandleSignIn | src/App.tsx:75-92 | after successful authentication the user is set and the counters become `Loaded` from the fetched document; failed authentication changes nothing |
| Scenarios.SignUpAndTapFiveTimes | src/App.tsx:27-69 | a new account that taps five times holds 60 points, 2472 energy and 5 markers, and the last write sent carries exactly those counters |

## Left out

- Firebase authentication and Firestore calls (`createUserWithEmailAndPassword`,
  `signInWithEmailAndPassword`, `setDoc`, `getDoc`, `updateDoc`): these are
  foreign network services. Their results are parameters, and the writes are
  returned values. No store state is kept.
- Timer scheduling (the 10000 ms cadence and `clearInterval`): only the effect
  of one tick is modelled (`RegenerateTick`).
- Asynchrony: `handleClick` reads `energy` and `clicks` as captured before its
  `await`. Ticks, other taps, or their writes completing out of order can
  interleave with it. The model runs each handler as one atomic step.
- The id from `Date.now()` and the position from `getBoundingClientRect`
  are JavaScript doubles. Here they are integers given by the caller.
- JavaScript numbers are modelled as unbounded integers. Loss of precision
  for very large counters is not modelled. Nor are NaN, non-numeric or
  boolean stored fields: a stored field is a number, missing, or null.
- The energy-bar width `energy / 6500 * 100`: this is floating-point
  presentation.
- The email/password form, the JSX rendering, the CSS animation and the
  console logging: these are UI and I/O. Of the auth user only `uid`, which
  keys the store writes, and `email` are kept.
