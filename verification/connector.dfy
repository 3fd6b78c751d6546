/**
 * The UML connector of the Cosa capsule framework: a value that capsules
 * share, which schedules its listener capsules on every assignment, or,
 * with the change filter on, only on an assignment that changes it.
 *
 * The controller's scheduling queue is not modelled; an assignment returns
 * the listener vectors it handed to `controller.schedule`, in order.
 */
module Connector {

  /** A capsule, identified abstractly. */
  type CapsuleId = nat

  /**
   * Connector<T, ON_CHANGE>: the current value, the listener vector (its
   * null terminator left implicit) and the template's change filter flag.
   */
  datatype Connector<T> = Connector(value: T, listeners: seq<CapsuleId>, onChange: bool)

  /** The effect of an assignment: the connector after it, the value the operator returns, and each schedule request it made. */
  datatype Assigned<T> = Assigned(conn: Connector<T>, ret: T, scheduled: seq<seq<CapsuleId>>)

  /** Connector(listeners, value). */
  function New<T>(listeners: seq<CapsuleId>, value: T, onChange: bool): (c: Connector<T>)
    ensures Get(c) == value && c.listeners == listeners && c.onChange == onChange
  {
    Connector(value, listeners, onChange)
  }

  /** operator T(): the stored value. */
  function Get<T>(c: Connector<T>): T {
    c.value
  }

  /**
   * operator=(value): returns the value it was given.  With the change
   * filter on and the value already stored, nothing happens; otherwise the
   * value is stored and the listeners are scheduled once.
   */
  function Assign<T(==)>(c: Connector<T>, v: T): (a: Assigned<T>)
    ensures a.ret == v && Get(a.conn) == v
    ensures a.conn.listeners == c.listeners && a.conn.onChange == c.onChange
    ensures a.scheduled == [] || a.scheduled == [c.listeners]
    ensures a.scheduled == [] <==> c.onChange && Get(c) == v
    ensures a.scheduled == [] ==> a.conn == c
  {
    if c.onChange && c.value == v then Assigned(c, v, [])
    else Assigned(c.(value := v), v, [c.listeners])
  }

  /** operator=(Connector<T>&): the argument is a connector without the change filter; its value is assigned. */
  function AssignFrom<T(==)>(c: Connector<T>, other: Connector<T>): (a: Assigned<T>)
    requires !other.onChange
    ensures a == Assign(c, Get(other))
    ensures a.ret == Get(other) && Get(a.conn) == Get(other)
  {
    Assign(c, other.value)
  }

  /**
   * operator T() read back.  The first two clauses gather, for the reader,
   * facts `New` and `Assign` already ensure: a connector reads as the value
   * last given to it, by construction or by assignment.  The others are new:
   * assigning a connector the value it reads changes nothing, and schedules
   * the listeners once exactly when the change filter is off.
   */
  lemma ReadAfterWrite<T>(c: Connector<T>, listeners: seq<CapsuleId>, v: T, onChange: bool)
    ensures Get(New(listeners, v, onChange)) == v
    ensures Get(Assign(c, v).conn) == v
    ensures Assign(c, Get(c)).conn == c
    ensures Assign(c, Get(c)).scheduled == (if c.onChange then [] else [c.listeners])
  {
  }

  /** Signal: a boolean connector with the change filter on. */
  function Signal(listeners: seq<CapsuleId>, value: bool): (c: Connector<bool>)
    ensures c.onChange && Get(c) == value
  {
    New(listeners, value, true)
  }

  /** A signal schedules its listeners exactly when the assignment toggles it. */
  lemma SignalSchedulesOnToggle(s: Connector<bool>, v: bool)
    requires s.onChange
    ensures |Assign(s, v).scheduled| == (if v != Get(s) then 1 else 0)
  {
  }

  /** Assign each value of vs in turn. */
  function AssignAll<T(==)>(c: Connector<T>, vs: seq<T>): (a: Assigned<T>)
    ensures a.conn.listeners == c.listeners && a.conn.onChange == c.onChange
    ensures forall i | 0 <= i < |a.scheduled| :: a.scheduled[i] == c.listeners
    decreases |vs|
  {
    if vs == [] then Assigned(c, c.value, [])
    else
      var first := Assign(c, vs[0]);
      var rest := AssignAll(first.conn, vs[1..]);
      Assigned(rest.conn, rest.ret, first.scheduled + rest.scheduled)
  }

  /** The number of values in vs that differ from the value before them, the first compared with v. */
  function Changes<T(==)>(v: T, vs: seq<T>): nat
    decreases |vs|
  {
    if vs == [] then 0
    else (if vs[0] != v then 1 else 0) + Changes(vs[0], vs[1..])
  }

  /** After a series of assignments the connector holds the last value assigned. */
  lemma {:induction false} AssignAllHoldsLast<T>(c: Connector<T>, vs: seq<T>)
    requires vs != []
    ensures Get(AssignAll(c, vs).conn) == vs[|vs| - 1]
    decreases |vs|
  {
    if |vs| > 1 {
      AssignAllHoldsLast(Assign(c, vs[0]).conn, vs[1..]);
    }
  }

  /** Without the change filter, every assignment schedules the listeners exactly once. */
  lemma {:induction false} UnfilteredSchedulesEach<T>(c: Connector<T>, vs: seq<T>)
    requires !c.onChange
    ensures |AssignAll(c, vs).scheduled| == |vs|
    decreases |vs|
  {
    if vs != [] {
      UnfilteredSchedulesEach(Assign(c, vs[0]).conn, vs[1..]);
    }
  }

  /** With the change filter, the listeners are scheduled once per change of value and never otherwise. */
  lemma {:induction false} FilteredSchedulesOnChange<T>(c: Connector<T>, vs: seq<T>)
    requires c.onChange
    ensures |AssignAll(c, vs).scheduled| == Changes(Get(c), vs)
    decreases |vs|
  {
    if vs != [] {
      FilteredSchedulesOnChange(Assign(c, vs[0]).conn, vs[1..]);
    }
  }
}
