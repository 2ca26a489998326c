/** The ros_control hardware adapter of the Aubo arm: joint buffers, the wrench sample,
    the two running flags, and the calls it makes into the robot driver. */
module AuboHardware {
  import opened Controllers
  import opened RateLimiter

  /** A call into the robot driver, as recorded in the interface's trace. */
  datatype DriverCall =
    | SetSpeed(velocities: seq<real>, acceleration: real)
    | ServoJ(positions: seq<real>)
    | OpenServo
    | CloseServo

  /** The control rate in Hz. Write passes the per-cycle limit times this rate to setSpeed,
      which makes that argument an acceleration (15 rad/s^2 for the default limit). */
  const ControlRate: real := 125.0

  /** The limit set by the constructor, an acceleration of 15 rad/s^2 at 125 Hz. */
  const DefaultMaxVelChange: real := 0.12

  /** n copies of one driver call. */
  function Repeat(c: DriverCall, n: nat): (r: seq<DriverCall>)
    ensures |r| == n
    ensures forall i :: 0 <= i < n ==> r[i] == c
  {
    if n == 0 then [] else Repeat(c, n - 1) + [c]
  }

  function Zeros(n: nat): seq<real>
  {
    seq(n, _ => 0.0)
  }

  /** A vector resized to n elements: the first elements are kept and the new ones are
      value-initialised to zero. */
  function Resized(s: seq<real>, n: nat): (r: seq<real>)
    ensures |r| == n
    ensures forall i :: 0 <= i < n ==> r[i] == if i < |s| then s[i] else 0.0
  {
    if n <= |s| then s[..n] else s + Zeros(n - |s|)
  }

  class AuboHardwareInterface {
    var velocityInterfaceRunning: bool
    var positionInterfaceRunning: bool
    var jointPosition: seq<real>
    var jointVelocity: seq<real>
    var jointEffort: seq<real>
    var jointPositionCommand: seq<real>
    var jointVelocityCommand: seq<real>
    var prevJointVelocityCommand: seq<real>
    var numJoints: nat
    var robotForce: array<real>
    var robotTorque: array<real>
    var maxVelChange: real

    /** Every call made into the robot driver, oldest first. */
    ghost var trace: seq<DriverCall>

    /** The wrench arrays are two distinct three-element buffers. */
    ghost predicate WrenchValid()
      reads this
    {
      robotForce.Length == 3 && robotTorque.Length == 3 && robotForce != robotTorque
    }

    /** Object invariant: at least one joint and all six joint buffers of that length. */
    ghost predicate Valid()
      reads this
    {
      WrenchValid() &&
      numJoints >= 1 &&
      |jointPosition| == numJoints && |jointVelocity| == numJoints && |jointEffort| == numJoints &&
      |jointPositionCommand| == numJoints && |jointVelocityCommand| == numJoints &&
      |prevJointVelocityCommand| == numJoints
    }

    function Running(): Flags
      reads this
    {
      Flags(velocityInterfaceRunning, positionInterfaceRunning)
    }

    /** Construction: the wrench arrays start at zero, init sizes the joint buffers for
        n joints, and the velocity limit is set to its default. */
    constructor (n: nat)
      requires n >= 1
      ensures Valid() && fresh(robotForce) && fresh(robotTorque)
      ensures numJoints == n
      ensures jointPosition == Zeros(n) && jointVelocity == Zeros(n) && jointEffort == Zeros(n)
      ensures jointPositionCommand == Zeros(n) && jointVelocityCommand == Zeros(n)
      ensures prevJointVelocityCommand == Zeros(n)
      ensures robotForce[..] == [0.0, 0.0, 0.0] && robotTorque[..] == [0.0, 0.0, 0.0]
      ensures !velocityInterfaceRunning && !positionInterfaceRunning
      ensures maxVelChange == DefaultMaxVelChange
      ensures trace == []
    {
      jointPosition, jointVelocity, jointEffort := [], [], [];
      jointPositionCommand, jointVelocityCommand, prevJointVelocityCommand := [], [], [];
      robotForce := new real[3](_ => 0.0);
      robotTorque := new real[3](_ => 0.0);
      trace := [];
      new;
      Init(n);
      maxVelChange := DefaultMaxVelChange;
      assert robotForce[..] == [0.0, 0.0, 0.0] && robotTorque[..] == [0.0, 0.0, 0.0];
    }

    /** Sizes every joint buffer for n joints, zeroes the previous velocity command and
        clears both running flags. */
    method Init(n: nat)
      requires n >= 1
      requires WrenchValid()
      modifies this
      ensures Valid()
      ensures numJoints == n
      ensures jointPosition == Resized(old(jointPosition), n)
      ensures jointVelocity == Resized(old(jointVelocity), n)
      ensures jointEffort == Resized(old(jointEffort), n)
      ensures jointPositionCommand == Resized(old(jointPositionCommand), n)
      ensures jointVelocityCommand == Resized(old(jointVelocityCommand), n)
      ensures prevJointVelocityCommand == Zeros(n)
      ensures !velocityInterfaceRunning && !positionInterfaceRunning
      ensures robotForce == old(robotForce) && robotTorque == old(robotTorque)
      ensures maxVelChange == old(maxVelChange) && trace == old(trace)
    {
      var prev := Resized(prevJointVelocityCommand, n);
      var i := 0;
      while i < n
        invariant 0 <= i <= n
        invariant |prev| == n
        invariant forall k :: 0 <= k < i ==> prev[k] == 0.0
      {
        prev := prev[i := 0.0];
        i := i + 1;
      }
      assert prev == Zeros(n);
      numJoints := n;
      jointPosition := Resized(jointPosition, n);
      jointVelocity := Resized(jointVelocity, n);
      jointEffort := Resized(jointEffort, n);
      jointPositionCommand := Resized(jointPositionCommand, n);
      jointVelocityCommand := Resized(jointVelocityCommand, n);
      prevJointVelocityCommand := prev;
      velocityInterfaceRunning := false;
      positionInterfaceRunning := false;
    }

    /** Copies the driver's telemetry into the buffers, index for index; the combined
        wrench vector is split into force (entries 0 to 2) and torque (entries 3 to 5). */
    method Read(pos: seq<real>, vel: seq<real>, current: seq<real>, tcp: seq<real>)
      requires Valid()
      requires |pos| >= numJoints && |vel| >= numJoints && |current| >= numJoints
      requires |tcp| >= 6
      modifies this`jointPosition, this`jointVelocity, this`jointEffort, robotForce, robotTorque
      ensures Valid()
      ensures jointPosition == pos[..numJoints]
      ensures jointVelocity == vel[..numJoints]
      ensures jointEffort == current[..numJoints]
      ensures robotForce[..] == tcp[..3] && robotTorque[..] == tcp[3..6]
    {
      var i := 0;
      while i < numJoints
        modifies this`jointPosition, this`jointVelocity, this`jointEffort
        invariant 0 <= i <= numJoints
        invariant |jointPosition| == numJoints && |jointVelocity| == numJoints && |jointEffort| == numJoints
        invariant forall k :: 0 <= k < i ==> jointPosition[k] == pos[k]
        invariant forall k :: 0 <= k < i ==> jointVelocity[k] == vel[k]
        invariant forall k :: 0 <= k < i ==> jointEffort[k] == current[k]
      {
        jointPosition := jointPosition[i := pos[i]];
        jointVelocity := jointVelocity[i := vel[i]];
        jointEffort := jointEffort[i := current[i]];
        i := i + 1;
      }
      var j := 0;
      while j < 3
        modifies robotForce, robotTorque
        invariant 0 <= j <= 3
        invariant forall k :: 0 <= k < j ==> robotForce[k] == tcp[k]
        invariant forall k :: 0 <= k < j ==> robotTorque[k] == tcp[k + 3]
      {
        robotForce[j] := tcp[j];
        robotTorque[j] := tcp[j + 3];
        j := j + 1;
      }
    }

    /** Sets the per-cycle velocity limit; any value is accepted. */
    method SetMaxVelChange(inp: real)
      requires Valid()
      modifies this`maxVelChange
      ensures Valid()
      ensures maxVelChange == inp
    {
      maxVelChange := inp;
    }

    /** One cycle of command dispatch. With velocity running, the rate-limited velocity
        command of the first six joints goes to setSpeed and becomes the previous command;
        otherwise, with position running, the position command goes unchanged to servoj;
        otherwise nothing is sent. Velocity takes precedence when both flags are set. */
    method Write()
      requires Valid()
      requires velocityInterfaceRunning ==> numJoints >= 6
      modifies this`prevJointVelocityCommand, this`trace
      ensures Valid()
      ensures velocityInterfaceRunning ==>
        prevJointVelocityCommand == Limit(jointVelocityCommand, old(prevJointVelocityCommand), maxVelChange) &&
        trace == old(trace) + [SetSpeed(prevJointVelocityCommand[..6], maxVelChange * ControlRate)]
      ensures !velocityInterfaceRunning && positionInterfaceRunning ==>
        prevJointVelocityCommand == old(prevJointVelocityCommand) &&
        trace == old(trace) + [ServoJ(jointPositionCommand)]
      ensures !velocityInterfaceRunning && !positionInterfaceRunning ==>
        prevJointVelocityCommand == old(prevJointVelocityCommand) && trace == old(trace)
    {
      if velocityInterfaceRunning {
        var cmd := Zeros(|jointVelocityCommand|);
        var i := 0;
        while i < |jointVelocityCommand|
          modifies this`prevJointVelocityCommand
          invariant 0 <= i <= |jointVelocityCommand|
          invariant |cmd| == |jointVelocityCommand| && |prevJointVelocityCommand| == numJoints
          invariant forall k :: 0 <= k < i ==>
            cmd[k] == Clamp(jointVelocityCommand[k], old(prevJointVelocityCommand)[k], maxVelChange)
          invariant forall k :: 0 <= k < i ==> prevJointVelocityCommand[k] == cmd[k]
          invariant forall k :: i <= k < numJoints ==> prevJointVelocityCommand[k] == old(prevJointVelocityCommand)[k]
        {
          cmd := cmd[i := jointVelocityCommand[i]];
          if cmd[i] > prevJointVelocityCommand[i] + maxVelChange {
            cmd := cmd[i := prevJointVelocityCommand[i] + maxVelChange];
          } else if cmd[i] < prevJointVelocityCommand[i] - maxVelChange {
            cmd := cmd[i := prevJointVelocityCommand[i] - maxVelChange];
          }
          prevJointVelocityCommand := prevJointVelocityCommand[i := cmd[i]];
          i := i + 1;
        }
        assert cmd == prevJointVelocityCommand;
        assert [cmd[0], cmd[1], cmd[2], cmd[3], cmd[4], cmd[5]] == cmd[..6];
        trace := trace + [SetSpeed([cmd[0], cmd[1], cmd[2], cmd[3], cmd[4], cmd[5]], maxVelChange * ControlRate)];
      } else if positionInterfaceRunning {
        trace := trace + [ServoJ(jointPositionCommand)];
      }
    }

    /** Admission of a switch request. It changes nothing; it refuses the request as soon
        as one start descriptor is refused by the rule in Controllers.Refused. */
    method CanSwitch(start: seq<ControllerKind>, stop: seq<ControllerKind>) returns (ok: bool)
      ensures ok == Admissible(Running(), start, stop)
    {
      var i := 0;
      while i < |start|
        invariant 0 <= i <= |start|
        invariant forall j :: 0 <= j < i ==> !Refused(Running(), start[j], stop)
      {
        if start[i] == Velocity {
          if velocityInterfaceRunning {
            return false;
          }
          if positionInterfaceRunning {
            var stopping := Contains(stop, Position);
            if !stopping {
              return false;
            }
          }
        } else if start[i] == Position {
          if positionInterfaceRunning {
            return false;
          }
          if velocityInterfaceRunning {
            var stopping := Contains(stop, Velocity);
            if !stopping {
              return false;
            }
          }
        }
        i := i + 1;
      }
      return true;
    }

    /** Commits a switch request: first the stop list clears flags (closing the servo for
        every position descriptor), then the start list sets flags (opening the servo for
        every position descriptor). There is no re-check of admission. */
    method DoSwitch(start: seq<ControllerKind>, stop: seq<ControllerKind>)
      requires Valid()
      modifies this`velocityInterfaceRunning, this`positionInterfaceRunning, this`trace
      ensures Valid()
      ensures Running() == Switched(old(Running()), start, stop)
      ensures trace == old(trace) + Repeat(CloseServo, Count(stop, Position)) + Repeat(OpenServo, Count(start, Position))
    {
      ProcessStopList(stop);
      ProcessStartList(start);
    }

    /** The first loop of doSwitch: every stop descriptor clears its kind's flag, and a
        position descriptor also closes the servo. */
    method ProcessStopList(stop: seq<ControllerKind>)
      modifies this`velocityInterfaceRunning, this`positionInterfaceRunning, this`trace
      ensures Running() == Switched(old(Running()), [], stop)
      ensures trace == old(trace) + Repeat(CloseServo, Count(stop, Position))
    {
      var i := 0;
      while i < |stop|
        invariant 0 <= i <= |stop|
        invariant velocityInterfaceRunning == if Velocity in stop[..i] then false else old(velocityInterfaceRunning)
        invariant positionInterfaceRunning == if Position in stop[..i] then false else old(positionInterfaceRunning)
        invariant trace == old(trace) + Repeat(CloseServo, Count(stop[..i], Position))
      {
        assert stop[..i + 1] == stop[..i] + [stop[i]];
        if stop[i] == Velocity {
          velocityInterfaceRunning := false;
        }
        if stop[i] == Position {
          positionInterfaceRunning := false;
          trace := trace + [CloseServo];
        }
        i := i + 1;
      }
      assert stop[..i] == stop;
    }

    /** The second loop of doSwitch: every start descriptor sets its kind's flag, and a
        position descriptor also opens the servo. */
    method ProcessStartList(start: seq<ControllerKind>)
      modifies this`velocityInterfaceRunning, this`positionInterfaceRunning, this`trace
      ensures velocityInterfaceRunning == if Velocity in start then true else old(velocityInterfaceRunning)
      ensures positionInterfaceRunning == if Position in start then true else old(positionInterfaceRunning)
      ensures trace == old(trace) + Repeat(OpenServo, Count(start, Position))
    {
      var j := 0;
      while j < |start|
        invariant 0 <= j <= |start|
        invariant velocityInterfaceRunning == if Velocity in start[..j] then true else old(velocityInterfaceRunning)
        invariant positionInterfaceRunning == if Position in start[..j] then true else old(positionInterfaceRunning)
        invariant trace == old(trace) + Repeat(OpenServo, Count(start[..j], Position))
      {
        assert start[..j + 1] == start[..j] + [start[j]];
        if start[j] == Velocity {
          velocityInterfaceRunning := true;
        }
        if start[j] == Position {
          positionInterfaceRunning := true;
          trace := trace + [OpenServo];
        }
        j := j + 1;
      }
      assert start[..j] == start;
    }
  }

  /** Reading twice with unchanged telemetry leaves the buffers as the first read left them. */
  method ReadTwice(hw: AuboHardwareInterface, pos: seq<real>, vel: seq<real>, current: seq<real>, tcp: seq<real>)
    requires hw.Valid()
    requires |pos| >= hw.numJoints && |vel| >= hw.numJoints && |current| >= hw.numJoints && |tcp| >= 6
    modifies hw`jointPosition, hw`jointVelocity, hw`jointEffort, hw.robotForce, hw.robotTorque
  {
    hw.Read(pos, vel, current, tcp);
    ghost var p, v, e := hw.jointPosition, hw.jointVelocity, hw.jointEffort;
    ghost var force, torque := hw.robotForce[..], hw.robotTorque[..];
    hw.Read(pos, vel, current, tcp);
    assert hw.jointPosition == p && hw.jointVelocity == v && hw.jointEffort == e;
    assert hw.robotForce[..] == force && hw.robotTorque[..] == torque;
  }

  /** Six joints from construction: nothing is sent while idle; starting position is
      admitted, opens the servo once, and the next write sends the position command. */
  method StartPositionScenario(target: seq<real>)
    requires |target| == 6
  {
    var hw := new AuboHardwareInterface(6);
    hw.Write();
    assert hw.trace == [];

    var ok := hw.CanSwitch([Position], []);
    assert ok;
    hw.DoSwitch([Position], []);
    assert hw.Running() == Flags(false, true);
    assert hw.trace == [OpenServo];

    hw.jointPositionCommand := target;
    hw.Write();
    assert hw.trace == [OpenServo, ServoJ(target)];
  }

  /** With position running and the arm at rest: starting velocity alone is refused,
      the swap that also stops position is admitted and closes the servo once, and a
      request of 1 on the first joint is sent as 0.12 with acceleration 15. */
  method SwapScenario(hw: AuboHardwareInterface)
    requires hw.Valid() && hw.numJoints == 6
    requires hw.Running() == Flags(false, true)
    requires hw.prevJointVelocityCommand == Zeros(6) && hw.maxVelChange == DefaultMaxVelChange
    modifies hw
  {
    ghost var before := hw.trace;
    var ok := hw.CanSwitch([Velocity], []);
    VelocityWhilePositionRejected([]);
    assert !ok;
    ok := hw.CanSwitch([Velocity], [Position]);
    assert ok;
    hw.DoSwitch([Velocity], [Position]);
    assert hw.Running() == Flags(true, false);
    assert hw.trace == before + [CloseServo];

    hw.jointVelocityCommand := [1.0, 0.0, 0.0, 0.0, 0.0, 0.0];
    hw.Write();
    LimitFromRest();
    assert hw.prevJointVelocityCommand == [0.12, 0.0, 0.0, 0.0, 0.0, 0.0];
    assert hw.prevJointVelocityCommand[..6] == hw.prevJointVelocityCommand;
    assert hw.trace == before + [CloseServo, SetSpeed([0.12, 0.0, 0.0, 0.0, 0.0, 0.0], 15.0)];
  }
}
