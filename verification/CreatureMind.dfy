/** Thinking, following, wandering and walking: what goes on in a creature. */
module CreatureMind {
  import opened Route
  import opened Wrappers

  const THINK_DURATION: int := 1000

  /** What stands in the way of a step, and where it leads: a floor or a teleport may take one elsewhere. */
  datatype Ground = Ground(canStep: bool, tileThere: bool, moves: bool, arrived: Position)

  /**
    What a creature finds when it is asked to think.  Attacking, conditions and events may stop its thinking and
    start it again, `restarts` times, and may leave it stopped.
   */
  datatype Moment = Moment(alive: bool, aliveAfter: bool, reason: bool, elapsed: nat,
                           targetAlive: bool, near: bool, path: Option<seq<Direction>>,
                           ready: bool, drunk: bool, direction: Direction, interval: int, ground: Ground,
                           restarts: nat, stops: bool)

  class Creature {
    const id: nat
    var position: Position
    var route: seq<Position>
    var followed: Option<nat>
    var needsNewRoute: bool
    var wandering: bool
    var thinkDuration: int

    /** The call the creature remembers, and all that are under way: in the dispatcher, and waiting in the scheduler. */
    var thinkTaskId: nat
    var dispatched: nat
    var scheduled: set<nat>
    var lastTask: nat

    predicate IsThinking()
      reads this
    {
      thinkDuration > 0
    }

    /** How many times the creature is going to be asked to think. */
    function Pending(): nat
      reads this
    {
      dispatched + |scheduled|
    }

    /** The route leads from where the creature is, from one square to the next. */
    predicate Walkable()
      reads this
    {
      Chain(position, route)
    }

    /** The call the creature remembers can still be called off. */
    predicate CanCallOff()
      reads this
    {
      thinkTaskId in scheduled
    }

    /** A new route is wanted only to someone who is followed; who does not think does nothing. */
    predicate Calm()
      reads this
    {
      && (needsNewRoute ==> followed.Some?)
      && (!IsThinking() ==> route == [] && followed == None && !wandering && thinkTaskId == 0)
      && (forall task :: task in scheduled ==> 0 < task <= lastTask)
    }

    predicate Sound()
      reads this
    {
      Calm() && (thinkTaskId != 0 ==> thinkTaskId in scheduled || dispatched > 0)
    }

    /** Above all, who thinks will be asked to think again. */
    predicate Valid()
      reads this
    {
      Sound() && (IsThinking() ==> Pending() > 0)
    }

    constructor (id: nat, position: Position)
      ensures Valid() && Walkable() && !IsThinking() && Pending() == 0 && this.position == position
    {
      this.id, this.position := id, position;
      route, followed, needsNewRoute, wandering, thinkDuration := [], None, false, false, 0;
      thinkTaskId, dispatched, scheduled, lastTask := 0, 0, {}, 0;
    }

    // -------------------------------------------------------------- routing

    method OnRoutingStopped()
      modifies this`needsNewRoute
      ensures needsNewRoute == (old(needsNewRoute) || followed.Some?)
    {
      if followed.Some? {
        needsNewRoute := true;
      }
    }

    method StopRouting()
      modifies this`route, this`needsNewRoute
      ensures route == []
      ensures needsNewRoute == (old(needsNewRoute) || (old(route) != [] && followed.Some?))
    {
      if route == [] {
        return;
      }
      route := [];
      OnRoutingStopped();
    }

    /** Lays a route; it is one the creature can walk exactly if the directions are steps. */
    method StartRouting(directions: seq<Direction>) returns (ok: bool)
      requires Sound()
      modifies this`route, this`needsNewRoute
      ensures Sound() && ok == IsThinking()
      ensures Walkable() <==> !ok || Steps(position, directions)
      ensures route == if ok then Squares(position, directions) else []
      ensures needsNewRoute == (old(needsNewRoute) || (old(route) != [] && followed.Some?))
    {
      if !IsThinking() {
        StopRouting();
        return false;
      }
      StopRouting();
      if directions == [] {
        route := [];
      } else {
        route := SquaresOn(directions);
      }
      StepsMakeChain(position, directions);
      return true;
    }

    method SquaresOn(directions: seq<Direction>) returns (squares: seq<Position>)
      ensures squares == Squares(position, directions)
    {
      hide Next;
      squares := [];
      var p := position;
      for i := 0 to |directions|
        invariant squares + Squares(p, directions[i..]) == Squares(position, directions)
      {
        assert directions[i..][1..] == directions[i + 1..];
        p := Next(directions[i], p);
        squares := squares + [p];
      }
      assert squares + [] == squares;
    }

    // -------------------------------------------------------------- following

    method StopFollowing()
      requires Sound()
      modifies this`followed, this`needsNewRoute, this`route
      ensures Sound() && followed == None && !needsNewRoute
      ensures old(Walkable()) ==> Walkable()
      ensures route == if old(followed) == None then old(route) else []
    {
      if followed == None {
        return;
      }
      followed := None;
      needsNewRoute := false;
      StopRouting();
    }

    /** Whether a creature may be followed; `reachable` is what its place and the senses have to say. */
    predicate CanFollow(target: nat, reachable: bool)
      reads this
    {
      target != id && IsThinking() && reachable
    }

    method StartFollowing(target: nat, reachable: bool) returns (ok: bool)
      requires Sound()
      modifies this`followed, this`needsNewRoute, this`route
      ensures Sound() && ok == (target != id && old(IsThinking()) && reachable)
      ensures old(Walkable()) ==> Walkable()
      ensures followed == if ok then Some(target) else None
      ensures ok && old(followed) != followed ==> needsNewRoute && route == []
      ensures ok && old(followed) == followed ==> route == old(route) && needsNewRoute == old(needsNewRoute)
    {
      if !CanFollow(target, reachable) {
        StopFollowing();
        return false;
      }
      if Some(target) == followed {
        return true;
      }
      StopRouting();
      followed := Some(target);
      needsNewRoute := true;
      return true;
    }

    // -------------------------------------------------------------- wandering

    method StartWandering(interval: int) returns (ok: bool)
      requires Sound()
      modifies this`wandering
      ensures Sound() && ok == wandering == (IsThinking() && (old(wandering) || interval > 0))
    {
      if !IsThinking() {
        wandering := false;
        return false;
      }
      if wandering {
        return true;
      }
      if interval <= 0 {
        return false;
      }
      wandering := true;
      return true;
    }

    // -------------------------------------------------------------- thinking

    /** Begins to think, if there is a reason to; one more task is on its way then. */
    method StartThinking(alive: bool, reason: bool, interval: int) returns (ok: bool)
      requires Sound()
      modifies this`thinkDuration, this`dispatched, this`wandering
      ensures Sound() && ok == (old(IsThinking()) || (alive && reason)) && ok == IsThinking()
      ensures wandering == (old(wandering) || (!old(IsThinking()) && ok && interval > 0))
      ensures Pending() == old(Pending()) + if ok && !old(IsThinking()) then 1 else 0
    {
      if IsThinking() {
        return true;
      }
      if !alive || !reason {
        return false;
      }
      thinkDuration := THINK_DURATION;
      dispatched := dispatched + 1;
      var started := StartWandering(interval);
      return true;
    }

    /** Calls off a call that still waits in the scheduler, and no other. */
    method CancelTask(task: nat) returns (ok: bool)
      modifies this`scheduled
      ensures ok == (task in old(scheduled)) && scheduled == old(scheduled) - {task}
    {
      ok := task in scheduled;
      scheduled := scheduled - {task};
    }

    /** When its time has come the scheduler hands a call to the dispatcher; the creature goes on remembering it. */
    method HandOver(task: nat)
      requires Valid() && task in scheduled
      modifies this`scheduled, this`dispatched
      ensures Valid() && Pending() == old(Pending()) && dispatched == old(dispatched) + 1
      ensures scheduled == old(scheduled) - {task}
    {
      scheduled := scheduled - {task};
      dispatched := dispatched + 1;
    }

    /** Stops thinking, and all that comes of it. */
    method StopThinking()
      requires Sound()
      modifies this`thinkDuration, this`thinkTaskId, this`scheduled, this`followed, this`needsNewRoute, this`route,
          this`wandering
      ensures Sound() && !IsThinking() && followed == None && route == [] && !wandering && !needsNewRoute
      ensures thinkTaskId == 0
      ensures Pending() == old(Pending()) - if old(CanCallOff()) then 1 else 0
    {
      if !IsThinking() {
        return;
      }
      if thinkTaskId != 0 {
        var cancelled := CancelTask(thinkTaskId);
        thinkTaskId := 0;
      }
      thinkDuration := 0;
      followed, needsNewRoute, wandering := None, false, false;
      StopRouting();
    }

    // -------------------------------------------------------------- when creatures move

    /** The creature is somewhere else: it goes on from there if that is on its route. */
    method OnMove(destination: Position, alive: bool, reason: bool, interval: int)
      requires Sound()
      modifies this`position, this`route, this`needsNewRoute, this`thinkDuration, this`dispatched, this`wandering
      ensures Sound() && position == destination && route == After(old(route), destination) && followed == old(followed)
      ensures old(Walkable()) ==> Walkable()
      ensures IsThinking() == (old(IsThinking()) || (alive && reason))
      ensures wandering == (old(wandering) || (IsThinking() && !old(IsThinking()) && interval > 0))
      ensures needsNewRoute == (old(needsNewRoute) || (old(route) != [] && route == [] && followed.Some?))
      ensures Pending() == old(Pending()) + if IsThinking() && !old(IsThinking()) then 1 else 0
    {
      if Walkable() {
        AfterChain(position, route, destination);
      }
      position := destination;
      if route != [] {
        if destination !in route {
          AfterElsewhere(route, destination);
          StopRouting();
        } else {
          route := AfterLast(destination);
          if route == [] {
            OnRoutingStopped();
          }
        }
      }
      var thinks := StartThinking(alive, reason, interval);
    }

    method AfterLast(q: Position) returns (rest: seq<Position>)
      requires q in route
      ensures rest == After(route, q)
    {
      var k := |route|;
      while route[k - 1] != q
        invariant 0 < k <= |route| && q !in route[k..]
        decreases k
      {
        k := k - 1;
      }
      rest := route[k..];
      AfterIs(route, q, k);
    }

    /** The followed creature is somewhere else: the route now ends before that square, or is no good. */
    method OnFollowedMove(destination: Position, reachable: bool, seen: bool, alive: bool, interval: int)
      requires Sound() && followed.Some? && followed.value != id
      modifies this`followed, this`route, this`needsNewRoute, this`thinkDuration, this`dispatched, this`wandering
      ensures Sound() && position == old(position)
      ensures old(Walkable()) ==> Walkable()
      ensures followed == if old(IsThinking()) && reachable then old(followed) else None
      ensures route == if followed.Some? && destination in old(route) then Before(old(route), destination) else []
      ensures needsNewRoute
              == (followed.Some?
                  && (old(needsNewRoute)
                      || (route == [] && (old(route) != [] || Distance(position, destination) > 1))))
      ensures IsThinking() == (old(IsThinking()) || (seen && alive))
      ensures wandering == (old(wandering) || (IsThinking() && !old(IsThinking()) && interval > 0))
      ensures Pending() == old(Pending()) + if IsThinking() && !old(IsThinking()) then 1 else 0
    {
      hide Distance, Before;
      if CanFollow(followed.value, reachable) {
        if route != [] {
          CutRoute(destination);
        } else if Distance(position, destination) > 1 {
          needsNewRoute := true;
        }
      } else {
        StopFollowing();
      }
      if seen {
        var thinks := StartThinking(alive, true, interval);
      }
    }

    /** The route is to end before a square on it; one that does not lead there is no good. */
    method CutRoute(q: Position)
      modifies this`route, this`needsNewRoute
      ensures route == if q in old(route) then Before(old(route), q) else []
      ensures needsNewRoute == (old(needsNewRoute) || (old(route) != [] && route == [] && followed.Some?))
      ensures old(Walkable()) ==> Walkable()
    {
      if q !in route {
        StopRouting();
        return;
      }
      if Walkable() {
        BeforeChain(position, route, q);
      }
      route := BeforeFirst(q);
      if route == [] {
        OnRoutingStopped();
      }
    }

    method BeforeFirst(q: Position) returns (rest: seq<Position>)
      requires q in route
      ensures rest == Before(route, q)
    {
      var k := 0;
      while route[k] != q
        invariant k < |route| && q !in route[..k]
        decreases |route| - k
      {
        k := k + 1;
      }
      rest := route[..k];
      BeforeIs(route, q, k);
    }

    /** Someone else moved, and may have cleared the way. */
    method OnOtherMove(seen: bool, alive: bool, interval: int)
      requires Sound()
      modifies this`needsNewRoute, this`thinkDuration, this`dispatched, this`wandering
      ensures Sound() && needsNewRoute == (old(needsNewRoute) || (followed.Some? && route == []))
      ensures IsThinking() == (old(IsThinking()) || (seen && alive))
      ensures wandering == (old(wandering) || (IsThinking() && !old(IsThinking()) && interval > 0))
      ensures Pending() == old(Pending()) + if IsThinking() && !old(IsThinking()) then 1 else 0
    {
      if followed.Some? && route == [] {
        needsNewRoute := true;
      }
      if seen {
        var thinks := StartThinking(alive, true, interval);
      }
    }

    // -------------------------------------------------------------- walking

    /** Steps onto a square, if nothing is against it, and arrives there or where that leads. */
    method MoveTo(ground: Ground) returns (ok: bool)
      requires Sound() && IsThinking()
      modifies this`position, this`route, this`needsNewRoute, this`thinkDuration, this`dispatched, this`wandering
      ensures Sound() && IsThinking() && Pending() == old(Pending()) && followed == old(followed)
      ensures wandering == old(wandering)
      ensures old(Walkable()) ==> Walkable()
      ensures ok == ground.moves
      ensures position == if ok then ground.arrived else old(position)
      ensures route == if ok then After(old(route), position) else old(route)
      ensures needsNewRoute == (old(needsNewRoute) || (old(route) != [] && route == [] && followed.Some?))
    {
      if !ground.moves {
        return false;
      }
      OnMove(ground.arrived, true, true, 0);
      return true;
    }

    /**
      Walks one square along the route.  If the route can be walked the next square is a neighbour, and no route is
      broken.
     */
    method WalkRoute(ground: Ground) returns (ok: bool)
      requires Sound() && IsThinking()
      modifies this`position, this`route, this`needsNewRoute, this`thinkDuration, this`dispatched, this`wandering
      ensures Sound() && IsThinking() && Pending() == old(Pending()) && followed == old(followed)
      ensures wandering == old(wandering)
      ensures old(Walkable()) ==> Walkable()
      ensures ok <==> old(route) != [] && ground.canStep && Distance(old(position), old(route)[0]) == 1
                      && ground.tileThere && ground.moves
      ensures old(Walkable()) && old(route) != [] ==> Distance(old(position), old(route)[0]) == 1
      ensures position == if ok then ground.arrived else old(position)
      ensures route == if ok then After(old(route), position) else if ground.canStep then [] else old(route)
      ensures needsNewRoute == (old(needsNewRoute) || (old(route) != [] && route == [] && followed.Some?))
      ensures ok && position == old(route)[0] && position !in old(route)[1..] ==> route == old(route)[1..]
    {
      if route == [] {
        return false;
      }
      if !ground.canStep {
        return false;
      }
      var nextPosition := route[0];
      if Distance(position, nextPosition) != 1 {
        StopRouting();
        return false;
      }
      if !ground.tileThere {
        StopRouting();
        return false;
      }
      if nextPosition !in route[1..] {
        AfterFirst(route);
      }
      ok := MoveTo(ground);
      if !ok {
        StopRouting();
      }
    }

    /** A step in some direction, taken when drunk or wandering. */
    method StepInDirection(direction: Direction, ground: Ground) returns (ok: bool)
      requires Sound() && IsThinking()
      modifies this`position, this`route, this`needsNewRoute, this`thinkDuration, this`dispatched, this`wandering
      ensures Sound() && IsThinking() && Pending() == old(Pending()) && followed == old(followed)
      ensures wandering == old(wandering)
      ensures old(Walkable()) ==> Walkable()
      ensures ok <==> direction != NONE && ground.tileThere && ground.moves
      ensures position == if ok then ground.arrived else old(position)
      ensures route == if ok then After(old(route), position) else old(route)
      ensures needsNewRoute == (old(needsNewRoute) || (old(route) != [] && route == [] && followed.Some?))
    {
      if direction == NONE || !ground.tileThere {
        return false;
      }
      ok := MoveTo(ground);
    }

    method Stagger(direction: Direction, ground: Ground) returns (ok: bool)
      requires Sound() && IsThinking()
      modifies this`position, this`route, this`needsNewRoute, this`thinkDuration, this`dispatched, this`wandering
      ensures Sound() && IsThinking() && Pending() == old(Pending()) && followed == old(followed)
      ensures wandering == old(wandering)
      ensures old(Walkable()) ==> Walkable()
      ensures ok <==> ground.canStep && direction != NONE && ground.tileThere && ground.moves
      ensures position == if ok then ground.arrived else old(position)
      ensures route == if ok then After(old(route), position) else old(route)
      ensures needsNewRoute == (old(needsNewRoute) || (old(route) != [] && route == [] && followed.Some?))
    {
      if !ground.canStep {
        return false;
      }
      ok := StepInDirection(direction, ground);
    }

    method Wander(direction: Direction, interval: int, ground: Ground) returns (ok: bool)
      requires Sound() && IsThinking()
      modifies this`position, this`route, this`needsNewRoute, this`thinkDuration, this`dispatched, this`wandering
      ensures Sound() && IsThinking() && Pending() == old(Pending()) && followed == old(followed)
      ensures old(Walkable()) ==> Walkable()
      ensures ok <==> old(wandering) && ground.canStep && direction != NONE && ground.tileThere && ground.moves
      ensures position == if ok then ground.arrived else old(position)
      ensures route == if ok then After(old(route), position) else old(route)
      ensures needsNewRoute == (old(needsNewRoute) || (old(route) != [] && route == [] && followed.Some?))
      ensures wandering == (old(wandering) && !(ok && interval <= 0))
    {
      if !wandering || !ground.canStep {
        return false;
      }
      ok := StepInDirection(direction, ground);
      if ok && interval <= 0 {
        wandering := false;
      }
    }

    /** Whether the creature gets on: along a route if it has one, or wandering; in any direction when drunk. */
    predicate GetsOn(route: seq<Position>, ready: bool, drunk: bool, direction: Direction, ground: Ground)
      reads this`position, this`wandering
    {
      && ready && ground.canStep && ground.tileThere && ground.moves
      && if route == [] then wandering && direction != NONE
         else if drunk then direction != NONE
         else Distance(position, route[0]) == 1
    }

    method UpdateMovement(ready: bool, drunk: bool, direction: Direction, interval: int, ground: Ground)
      requires Sound() && IsThinking()
      modifies this`position, this`route, this`needsNewRoute, this`thinkDuration, this`dispatched, this`wandering
      ensures Sound() && IsThinking() && Pending() == old(Pending()) && followed == old(followed)
      ensures old(Walkable()) ==> Walkable()
      ensures var on := old(GetsOn(route, ready, drunk, direction, ground));
              && position == (if on then ground.arrived else old(position))
              && route == (if on then After(old(route), position)
                           else if ready && !drunk && ground.canStep then [] else old(route))
              && wandering == (old(wandering) && !(on && old(route) == [] && !drunk && interval <= 0))
      ensures needsNewRoute == (old(needsNewRoute) || (old(route) != [] && route == [] && followed.Some?))
    {
      if !ready {
        return;
      }
      var ok;
      if route != [] {
        if drunk {
          ok := Stagger(direction, ground);
          return;
        }
        ok := WalkRoute(ground);
        return;
      }
      if wandering {
        if drunk {
          ok := Stagger(direction, ground);
          return;
        }
        ok := Wander(direction, interval, ground);
      }
    }

    /** Looks for a new route to the followed creature, if one is wanted. */
    method UpdateFollowing(targetAlive: bool, near: bool, path: Option<seq<Direction>>)
      requires Sound() && IsThinking()
      modifies this`followed, this`needsNewRoute, this`route
      ensures Sound() && !needsNewRoute
      ensures old(Walkable()) && (path.Some? ==> Steps(position, path.value)) ==> Walkable()
      ensures followed == if old(needsNewRoute) && !targetAlive then None else old(followed)
      ensures route == if !old(needsNewRoute) || (targetAlive && near) then old(route)
                       else if targetAlive && path.Some? then Squares(position, path.value) else []
    {
      if !needsNewRoute {
        return;
      }
      needsNewRoute := false;
      if followed == None {
        return;
      }
      if !targetAlive {
        StopFollowing();
        return;
      }
      if near {
        return;
      }
      if path.Some? {
        var ok := StartRouting(path.value);
      } else {
        StopRouting();
      }
      needsNewRoute := false;
    }

    // -------------------------------------------------------------- being asked to think

    /** The route a creature has when it comes to moving: the one it had, or a new one if one is wanted. */
    function RouteSought(m: Moment): seq<Position>
      reads this`route, this`needsNewRoute, this`position
    {
      if !needsNewRoute || (m.targetAlive && m.near) then route
      else if m.targetAlive && m.path.Some? then Squares(position, m.path.value)
      else []
    }

    predicate GoesOn(m: Moment)
      reads this`route, this`needsNewRoute, this`position, this`wandering
    {
      GetsOn(RouteSought(m), m.ready, m.drunk, m.direction, m.ground)
    }

    /** Exactly when a creature gets on: with a route, drunk or not, and without one. */
    lemma GoesOnExactly(m: Moment)
      ensures var r, free := RouteSought(m), m.ready && m.ground.canStep && m.ground.tileThere && m.ground.moves;
              && (r != [] && !m.drunk ==> (GoesOn(m) <==> free && Distance(position, r[0]) == 1))
              && (r != [] && m.drunk ==> (GoesOn(m) <==> free && m.direction != NONE))
              && (r == [] ==> (GoesOn(m) <==> free && wandering && m.direction != NONE))
      ensures !needsNewRoute ==> RouteSought(m) == route
      ensures needsNewRoute && m.targetAlive && !m.near && m.path.Some? ==>
                RouteSought(m) == Squares(position, m.path.value)
      ensures needsNewRoute && m.targetAlive && m.near ==> RouteSought(m) == route
      ensures needsNewRoute && (!m.targetAlive || (!m.near && m.path.None?)) ==> RouteSought(m) == []
    {
    }

    /** Follows and moves; whatever else it leads to may stop the thinking, and start it again. */
    method OnThink(m: Moment)
      requires Sound() && IsThinking() && thinkTaskId == 0
      modifies this
      ensures Sound() && thinkTaskId == 0 && Pending() == old(Pending()) + m.restarts
      ensures IsThinking() == !m.stops
      ensures old(Walkable() && (m.path.Some? ==> Steps(position, m.path.value))) ==> Walkable()
      ensures position == if old(GoesOn(m)) then m.ground.arrived else old(position)
      ensures m.restarts == 0 && !m.stops ==>
                && followed == (if old(needsNewRoute) && !m.targetAlive then None else old(followed))
                && route == (if old(GoesOn(m)) then After(old(RouteSought(m)), position)
                             else if m.ready && !m.drunk && m.ground.canStep then [] else old(RouteSought(m)))
                && needsNewRoute == (old(RouteSought(m)) != [] && route == [] && followed.Some?)
      ensures m.restarts > 0 || m.stops ==> followed == None && route == []
    {
      UpdateFollowing(m.targetAlive, m.near, m.path);
      UpdateMovement(m.ready, m.drunk, m.direction, m.interval, m.ground);
      label moved:
      for i := 0 to m.restarts
        invariant position == old@moved(position) && (i > 0 ==> followed == None && route == [])
        invariant i == 0 ==> followed == old@moved(followed) && route == old@moved(route)
        invariant i == 0 ==> needsNewRoute == old@moved(needsNewRoute)
        invariant Sound() && IsThinking() && thinkTaskId == 0 && Pending() == old(Pending()) + i
        invariant old(Walkable() && (m.path.Some? ==> Steps(position, m.path.value))) ==> Walkable()
      {
        StopThinking();
        var thinks := StartThinking(true, true, m.interval);
      }
      if m.stops {
        StopThinking();
      }
    }

    /** After thinking: goes on for a while, or as long as there is something to think about. */
    method ScheduleThinking(alive: bool, reason: bool, elapsed: nat)
      requires Sound() && thinkTaskId == 0
      modifies this
      ensures Valid() && Pending() == old(Pending()) + (if IsThinking() then 1 else 0) && position == old(position)
      ensures old(Walkable()) ==> Walkable()
      ensures IsThinking() <==> alive && (old(thinkDuration) > elapsed || reason)
      ensures IsThinking() ==>
                && route == old(route) && followed == old(followed) && wandering == old(wandering)
                && needsNewRoute == old(needsNewRoute) && CanCallOff()
    {
      if !alive {
        StopThinking();
        return;
      }
      if thinkDuration > elapsed {
        thinkDuration := thinkDuration - elapsed;
      } else if reason {
        thinkDuration := THINK_DURATION;
      } else {
        StopThinking();
        return;
      }
      if thinkTaskId == 0 {
        lastTask := lastTask + 1;
        scheduled := scheduled + {lastTask};
        thinkTaskId := lastTask;
      }
    }

    /** Thinks, and sees to it that it will be asked again, unless there is nothing left to think about. */
    method Think(m: Moment)
      requires Calm()
      modifies this
      ensures Valid()
      ensures Pending()
              == old(Pending()) + (if old(IsThinking()) && m.alive then m.restarts else 0)
                 + if IsThinking() then 1 else 0
      ensures old(Walkable() && (m.path.Some? ==> Steps(position, m.path.value))) ==> Walkable()
      ensures !old(IsThinking()) ==> !IsThinking() && position == old(position)
      ensures old(IsThinking()) && m.alive ==> position == if old(GoesOn(m)) then m.ground.arrived else old(position)
      ensures old(IsThinking()) && IsThinking() && m.restarts == 0 && !m.stops ==>
                && followed == (if old(needsNewRoute) && !m.targetAlive then None else old(followed))
                && route == (if old(GoesOn(m)) then After(old(RouteSought(m)), position)
                             else if m.ready && !m.drunk && m.ground.canStep then [] else old(RouteSought(m)))
                && needsNewRoute == (old(RouteSought(m)) != [] && route == [] && followed.Some?)
      ensures IsThinking() && (m.restarts > 0 || m.stops) ==> followed == None && route == []
      ensures !m.alive ==> position == old(position)
      ensures !m.alive || !m.aliveAfter ==> !IsThinking()
      ensures old(IsThinking()) && m.alive && m.aliveAfter && m.reason ==> IsThinking()
      ensures IsThinking() ==> CanCallOff()
    {
      hide Distance, Steps;
      if !IsThinking() {
        return;
      }
      thinkTaskId := 0;
      if !m.alive {
        StopThinking();
        return;
      }
      OnThink(m);
      ScheduleThinking(m.aliveAfter, m.reason, m.elapsed);
    }

    /** The dispatcher asks the creature to think, be it the call the creature remembers or another. */
    method RunDispatched(m: Moment)
      requires Valid() && dispatched > 0
      modifies this
      ensures Valid()
      ensures Pending()
              == old(Pending()) + (if old(IsThinking()) && m.alive then m.restarts else 0)
                 - if IsThinking() then 0 else 1
      ensures old(Walkable() && (m.path.Some? ==> Steps(position, m.path.value))) ==> Walkable()
      ensures !old(IsThinking()) ==> !IsThinking() && position == old(position)
      ensures old(IsThinking()) && m.alive ==> position == if old(GoesOn(m)) then m.ground.arrived else old(position)
      ensures old(IsThinking()) && IsThinking() && m.restarts == 0 && !m.stops ==>
                && followed == (if old(needsNewRoute) && !m.targetAlive then None else old(followed))
                && route == (if old(GoesOn(m)) then After(old(RouteSought(m)), position)
                             else if m.ready && !m.drunk && m.ground.canStep then [] else old(RouteSought(m)))
                && needsNewRoute == (old(RouteSought(m)) != [] && route == [] && followed.Some?)
      ensures IsThinking() && (m.restarts > 0 || m.stops) ==> followed == None && route == []
      ensures !m.alive ==> position == old(position)
      ensures old(IsThinking()) && m.alive && m.aliveAfter && m.reason ==> IsThinking()
      ensures IsThinking() ==> CanCallOff()
    {
      dispatched := dispatched - 1;
      Think(m);
    }

    /** A call in the scheduler runs by way of the dispatcher, whether or not the creature remembers it. */
    method RunScheduled(task: nat, m: Moment)
      requires Valid() && task in scheduled
      modifies this
      ensures Valid()
      ensures Pending()
              == old(Pending()) + (if old(IsThinking()) && m.alive then m.restarts else 0)
                 - if IsThinking() then 0 else 1
      ensures old(Walkable() && (m.path.Some? ==> Steps(position, m.path.value))) ==> Walkable()
      ensures !old(IsThinking()) ==> !IsThinking() && position == old(position)
      ensures old(IsThinking()) && m.alive ==> position == if old(GoesOn(m)) then m.ground.arrived else old(position)
      ensures old(IsThinking()) && IsThinking() && m.restarts == 0 && !m.stops ==>
                && followed == (if old(needsNewRoute) && !m.targetAlive then None else old(followed))
                && route == (if old(GoesOn(m)) then After(old(RouteSought(m)), position)
                             else if m.ready && !m.drunk && m.ground.canStep then [] else old(RouteSought(m)))
                && needsNewRoute == (old(RouteSought(m)) != [] && route == [] && followed.Some?)
      ensures IsThinking() && (m.restarts > 0 || m.stops) ==> followed == None && route == []
      ensures !m.alive ==> position == old(position)
      ensures old(IsThinking()) && m.alive && m.aliveAfter && m.reason ==> IsThinking()
      ensures IsThinking() ==> CanCallOff()
    {
      HandOver(task);
      RunDispatched(m);
    }

    /** Stops and starts to think.  That makes one call too many exactly if the old one cannot be called off. */
    method Restart(interval: int)
      requires Valid() && IsThinking()
      modifies this
      ensures Valid() && IsThinking()
      ensures Pending() == old(Pending()) + if old(CanCallOff()) then 0 else 1
    {
      StopThinking();
      var thinks := StartThinking(true, true, interval);
    }

    /** With one call under way, one stays one exactly if it is remembered and still waits in the scheduler. */
    method RestartOfOne(interval: int)
      requires Valid() && IsThinking() && Pending() == 1
      modifies this
      ensures Valid() && IsThinking()
      ensures if old(CanCallOff()) then Pending() == 1 else Pending() == 2
    {
      Restart(interval);
    }
  }

  /** A moment in which nothing keeps a creature from a step to a square. */
  function Unhindered(square: Position, elapsed: nat): Moment {
    Moment(true, true, true, elapsed, true, false, None,
           true, false, NONE, 0, Ground(true, true, true, square), 0, false)
  }

  /** Thought by thought a creature walks its route to the end, one square at a time. */
  method WalkToTheEnd(creature: Creature, elapsed: nat) returns (steps: nat)
    requires creature.Valid() && creature.IsThinking() && creature.CanCallOff() && creature.Walkable()
    requires !creature.needsNewRoute
    requires forall i, j :: 0 <= i < j < |creature.route| ==> creature.route[i] != creature.route[j]
    modifies creature
    ensures creature.Valid() && creature.IsThinking() && steps == |old(creature.route)| && creature.route == []
    ensures creature.position == if steps == 0 then old(creature.position) else old(creature.route)[steps - 1]
    ensures creature.Pending() == old(creature.Pending())
  {
    hide Distance;
    steps := 0;
    while creature.route != []
      invariant creature.Valid() && creature.IsThinking() && creature.CanCallOff() && creature.Walkable()
      invariant steps <= |old(creature.route)| && creature.route == old(creature.route)[steps..]
      invariant creature.position == if steps == 0 then old(creature.position) else old(creature.route)[steps - 1]
      invariant creature.route != [] ==> !creature.needsNewRoute
      invariant creature.Pending() == old(creature.Pending())
      decreases |creature.route|
    {
      AfterFirst(creature.route);
      creature.RunScheduled(creature.thinkTaskId, Unhindered(creature.route[0], elapsed));
      steps := steps + 1;
    }
  }

  /** Right after it began, a creature does not remember the call that is in the dispatcher: a restart doubles it. */
  method RestartAtOnce(id: nat, position: Position) returns (creature: Creature)
    ensures fresh(creature) && creature.Valid() && creature.IsThinking() && creature.Pending() == 2
  {
    creature := new Creature(id, position);
    var thinks := creature.StartThinking(true, true, 0);
    assert creature.thinkTaskId == 0 && creature.Pending() == 1;
    creature.Restart(0);
  }

  /** A call that is remembered but has been handed over runs all the same: a restart doubles it, too. */
  method RestartAfterHandOver(id: nat, position: Position, m: Moment) returns (creature: Creature)
    requires m.alive && m.aliveAfter && m.reason && m.restarts == 0
    ensures fresh(creature) && creature.Valid() && creature.IsThinking() && creature.Pending() == 2
  {
    creature := new Creature(id, position);
    var thinks := creature.StartThinking(true, true, 0);
    creature.RunDispatched(m);
    creature.HandOver(creature.thinkTaskId);
    assert creature.thinkTaskId != 0 && creature.Pending() == 1;
    creature.Restart(0);
  }
}
