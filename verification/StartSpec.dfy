/** How a start is decoded (`src/game/start_spec.rs`): hirate replayed through
    the rules, or a written board taken as it is. */
module StartSpec {
  import opened Wrappers
  import opened Position
  import opened Legality
  import opened LegalityInPlace
  import opened PositionStore

  datatype StartSpec =
    | Buoy(setup: seq<Move>)
    | Written(position: Position)

  datatype IllegalSetup = IllegalSetup(index: nat, reason: Illegal)

  type Traversal = Result<seq<Position>, IllegalSetup>

  /** Every position a replay passes through, the start first; the first refusal
      ends it and names its index. */
  ghost function Replay(start: Position, moves: seq<Move>): (r: Traversal)
    ensures r.Success? ==> |r.value| == |moves| + 1 && r.value[0] == start
    ensures r.Failure? ==> r.error.index < |moves|
  {
    if moves == [] then Success([start])
    else
      var n := |moves| - 1;
      var before := Replay(start, moves[..n]);
      if before.Failure? then before
      else match ApplyMove(before.value[n], moves[n])
        case Failure(reason) => Failure(IllegalSetup(n, reason))
        case Success(next) => Success(before.value + [next])
  }

  ghost function Traverse(spec: StartSpec): (r: Traversal) {
    match spec
    case Buoy(setup) => Replay(HiratePosition(), setup)
    case Written(p) => Success([p])
  }

  ghost function Decode(spec: StartSpec): (r: Result<Position, IllegalSetup>) {
    match Traverse(spec)
    case Failure(e) => Failure(e)
    case Success(ps) => Success(ps[|ps| - 1])
  }

  /** A buoy starts from hirate; a written board is taken as it is, and passes
      through nothing else. */
  lemma WhereStartsBegin(setup: seq<Move>, p: Position)
    ensures Traverse(Written(p)) == Success([p]) && Decode(Written(p)) == Success(p)
    ensures Traverse(Buoy(setup)).Success? ==> Traverse(Buoy(setup)).value[0] == HiratePosition()
    ensures Decode(Buoy([])) == Success(HiratePosition())
  {
    hide HiratePosition;
  }

  /** Once a prefix is refused, every longer sequence is refused the same way. */
  lemma {:induction false} RefusalIsFinal(start: Position, moves: seq<Move>, n: nat)
    requires n <= |moves| && Replay(start, moves[..n]).Failure?
    ensures Replay(start, moves) == Replay(start, moves[..n])
  {
    hide ApplyMove;
    if n < |moves| {
      var m := |moves| - 1;
      assert moves[..m][..n] == moves[..n];
      RefusalIsFinal(start, moves[..m], n);
    } else {
      assert moves[..n] == moves;
    }
  }

  /** What a successful replay is: every move accepted from the position before
      it, giving the position after it. */
  lemma {:induction false} ReplayIsStepwise(start: Position, moves: seq<Move>, i: nat)
    requires Replay(start, moves).Success? && i < |moves|
    ensures ApplyMove(Replay(start, moves).value[i], moves[i]) == Success(Replay(start, moves).value[i + 1])
  {
    hide ApplyMove;
    var n := |moves| - 1;
    if i < n {
      ReplayIsStepwise(start, moves[..n], i);
    }
  }

  /** And only that: positions linked so are the replay. */
  lemma {:induction false} LinkedPositionsAreTheReplay(moves: seq<Move>, ps: seq<Position>)
    requires |ps| == |moves| + 1
    requires forall i :: 0 <= i < |moves| ==> ApplyMove(ps[i], moves[i]) == Success(ps[i + 1])
    ensures Replay(ps[0], moves) == Success(ps)
  {
    hide ApplyMove;
    if moves != [] {
      var n := |moves| - 1;
      LinkedPositionsAreTheReplay(moves[..n], ps[..n + 1]);
      assert ps == ps[..n + 1] + [ps[n + 1]];
    } else {
      assert ps == [ps[0]];
    }
  }

  /** Replaying a prefix gives the prefix of the replay. */
  lemma {:induction false} ReplayIsPrefixStable(start: Position, moves: seq<Move>, n: nat)
    requires n <= |moves| && Replay(start, moves).Success?
    ensures Replay(start, moves[..n]) == Success(Replay(start, moves).value[..n + 1])
  {
    hide ApplyMove;
    var all := Replay(start, moves).value;
    if n < |moves| {
      var m := |moves| - 1;
      assert moves[..m][..n] == moves[..n];
      ReplayIsPrefixStable(start, moves[..m], n);
      var before := Replay(start, moves[..m]).value;
      assert all[..|moves|] == before;
      assert all[..n + 1] == before[..n + 1];
    } else {
      assert moves[..n] == moves;
      assert all[..n + 1] == all;
    }
  }

  /** The reported index is the first refused move: the replay up to it
      succeeds and the move there is refused for the reported reason. */
  lemma {:induction false} RefusalNamesTheFirst(start: Position, moves: seq<Move>)
    requires Replay(start, moves).Failure?
    ensures var e := Replay(start, moves).error;
            && Replay(start, moves[..e.index]).Success?
            && ApplyMove(Replay(start, moves[..e.index]).value[e.index], moves[e.index]) == Failure(e.reason)
  {
    hide ApplyMove;
    var n := |moves| - 1;
    var e := Replay(start, moves).error;
    if Replay(start, moves[..n]).Failure? {
      RefusalNamesTheFirst(start, moves[..n]);
      assert moves[..n][..e.index] == moves[..e.index];
    }
  }

  /** `traversal`: the loop that pushes one position per setup move. */
  method TraversePositions(spec: StartSpec) returns (r: Traversal)
    ensures r == Traverse(spec)
  {
    if spec.Written? {
      return Success([spec.position]);
    }
    var setup := spec.setup;
    var start := new Store.Hirate();
    var first := start.Read();
    var traversal := [first];
    for i := 0 to |setup|
      invariant Replay(HiratePosition(), setup[..i]) == Success(traversal)
    {
      var next := ValidateMove(traversal[|traversal| - 1], setup[i], Enforced);
      assert setup[..i + 1][..i] == setup[..i];
      if next.Failure? {
        RefusalIsFinal(HiratePosition(), setup, i + 1);
        return Failure(IllegalSetup(i, next.error));
      }
      traversal := traversal + [next.value];
    }
    assert setup[..|setup|] == setup;
    return Success(traversal);
  }

  /** `decode`: the last position of the traversal. */
  method DecodePosition(spec: StartSpec) returns (r: Result<Position, IllegalSetup>)
    ensures r == Decode(spec)
  {
    var traversal := TraversePositions(spec);
    if traversal.Failure? {
      return Failure(traversal.error);
    }
    return Success(traversal.value[|traversal.value| - 1]);
  }
}
