/**
 * The notifications a surface sends to the shader-compilation coordinator (the `Shaders` module of the
 * library). What the coordinator does with them is outside this model; each call is recorded in a log.
 */
module Shaders {

  datatype Event =
    | SurfaceWillMount(surface: nat)
    | SurfaceWillUnmount(surface: nat)
    | BeforeSurfaceBuild(surface: nat)
    | AfterSurfaceBuild(surface: nat)

  /**
   * A log is well bracketed when every "before build" notification is immediately followed by the
   * matching "after build" notification for the same surface, and no "after build" appears on its own.
   */
  predicate Bracketed(log: seq<Event>)
    decreases |log|
  {
    if log == [] then true
    else if log[0].BeforeSurfaceBuild? then
      |log| >= 2 && log[1] == AfterSurfaceBuild(log[0].surface) && Bracketed(log[2..])
    else
      !log[0].AfterSurfaceBuild? && Bracketed(log[1..])
  }

  /** Appending a well-bracketed stretch of notifications to a well-bracketed log keeps it well bracketed. */
  lemma {:induction false} BracketedConcat(a: seq<Event>, b: seq<Event>)
    requires Bracketed(a) && Bracketed(b)
    ensures Bracketed(a + b)
    decreases |a|
  {
    if a == [] {
      assert a + b == b;
    } else if a[0].BeforeSurfaceBuild? {
      assert (a + b)[2..] == a[2..] + b;
      BracketedConcat(a[2..], b);
    } else {
      assert (a + b)[1..] == a[1..] + b;
      BracketedConcat(a[1..], b);
    }
  }

  /** The coordinator as seen by surfaces: a log of the notifications it received, in order. */
  class Notifications {
    ghost var log: seq<Event>

    constructor ()
      ensures log == []
    {
      log := [];
    }

    method OnSurfaceWillMount(surface: nat)
      modifies this
      ensures log == old(log) + [SurfaceWillMount(surface)]
    {
      log := log + [SurfaceWillMount(surface)];
    }

    method OnSurfaceWillUnmount(surface: nat)
      modifies this
      ensures log == old(log) + [SurfaceWillUnmount(surface)]
    {
      log := log + [SurfaceWillUnmount(surface)];
    }

    method BeforeSurfaceBuild(surface: nat)
      modifies this
      ensures log == old(log) + [Event.BeforeSurfaceBuild(surface)]
    {
      log := log + [Event.BeforeSurfaceBuild(surface)];
    }

    method AfterSurfaceBuild(surface: nat)
      modifies this
      ensures log == old(log) + [Event.AfterSurfaceBuild(surface)]
    {
      log := log + [Event.AfterSurfaceBuild(surface)];
    }
  }
}
