/** A client of the component: a new account taps five times in a row while
    every store write succeeds. */
module Scenarios {
  import opened Wrappers
  import opened TapEngine
  import opened AppState

  method SignUpAndTapFiveTimes(account: User) returns (points: int, energy: int, markers: nat, last: Option<StoreWrite>)
    ensures points == 60 && energy == 2472 && markers == 5
    ensures last == Some(UpdateCounters(account.uid, 60, 2472))
  {
    var app := new App();
    last := app.HandleSignUp(Authenticated(account), Written);
    var i := 0;
    while i < 5
      invariant 0 <= i <= 5
      invariant app.user == Some(account)
      invariant app.points == 12 * i && app.energy == 2532 - 12 * i
      invariant |app.clicks| == i
      invariant i > 0 ==> last == Some(UpdateCounters(account.uid, app.points, app.energy))
    {
      last := app.HandleClick(i, 0, 0, Written);
      i := i + 1;
    }
    points, energy, markers := app.points, app.energy, |app.clicks|;
  }
}
