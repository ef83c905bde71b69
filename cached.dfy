/**
 * The three-state cache slot a line keeps for each derived value. A slot is
 * Empty (nothing produced, or its storage handed out), Unused (a stale value
 * whose storage is kept for the next computation) or Used (a current value).
 */
module CachedState {
  import opened TextTypes

  datatype Cached<T> = Empty | Unused(payload: T) | Used(payload: T) {

    /** The value the slot holds, current or stale. */
    function Stored(): Option<T> {
      if Empty? then None else Some(payload)
    }

    /**
     * `is_unused`: the slot holds no current value, so the line must compute
     * one; a slot that is current always holds its value.
     */
    function IsUnused(): (r: bool)
      ensures r <==> (Empty? || Unused?)
      ensures !r ==> Stored().Some?
    {
      !Used?
    }

    /** `get`: the value, only when it is current. */
    function Get(): (r: Option<T>)
      ensures r.Some? <==> !IsUnused()
      ensures r.Some? ==> r == Stored()
    {
      if Used? then Some(payload) else None
    }

    /** `set_unused`: a current value goes stale; its storage is kept. */
    function SetUnused(): (r: Cached<T>)
      ensures r.IsUnused()
      ensures r.Stored() == Stored()
    {
      if Used? then Unused(payload) else this
    }

    /**
     * `take_unused`: hands out a stale value's storage and leaves the slot
     * Empty; a slot that is Empty or Used gives nothing and stays as it is.
     */
    function TakeUnused(): (r: (Option<T>, Cached<T>))
      ensures r.1.IsUnused() == IsUnused()
      ensures r.1.Stored() == None || r.1 == this
      ensures r.0.Some? <==> Unused?
      ensures r.0.Some? ==> r.0 == Stored() && r.1 == Empty
      ensures r.0.None? ==> r.1 == this
    {
      if Unused? then (Some(payload), Empty) else (None, this)
    }

    /** `set_used`: installs a freshly computed value as current. */
    function SetUsed(value: T): (r: Cached<T>)
      ensures r.Get() == Some(value)
    {
      Used(value)
    }
  }
}
