/**
 * The `GLSurface` component: its id, its render counter, its lifecycle hooks and `render`.
 */
module CreateSurface {
  import opened Wrappers
  import opened Shaders
  import opened Generations
  import opened SurfaceSpec

  /** The module-level counter that hands out surface ids; it starts at 1. */
  class SurfaceIds {
    var next: nat
    ghost var issued: set<nat>

    ghost predicate Valid()
      reads this
    {
      1 <= next && forall i :: i in issued ==> 1 <= i < next
    }

    constructor ()
      ensures Valid() && next == 1 && issued == {}
    {
      next := 1;
      issued := {};
    }
  }

  class GLSurface {
    const id: nat
    var renderId: nat
    /** The render attempts and unmounts this surface has seen, in order. */
    ghost var history: seq<LifecycleOp>

    ghost predicate Valid()
      reads this
    {
      1 <= id && renderId == RenderIdAfter(0, history)
    }

    /** Takes a fresh id from the module counter; no render has happened yet. */
    constructor (ids: SurfaceIds)
      requires ids.Valid()
      modifies ids
      ensures Valid() && renderId == 0 && history == []
      ensures id == old(ids.next) && id !in old(ids.issued)
      ensures ids.next == old(ids.next) + 1 && ids.issued == old(ids.issued) + {id} && ids.Valid()
    {
      var newId := ids.next;
      renderId := 0;
      history := [];
      id := newId;
      ids.next := ids.next + 1;
      ids.issued := ids.issued + {newId};
    }

    method ComponentWillMount(shaders: Notifications)
      modifies shaders
      ensures shaders.log == old(shaders.log) + [SurfaceWillMount(id)]
      ensures Bracketed(old(shaders.log)) ==> Bracketed(shaders.log)
    {
      shaders.OnSurfaceWillMount(id);
      if Bracketed(old(shaders.log)) {
        assert Bracketed([SurfaceWillMount(id)][1..]);
        BracketedConcat(old(shaders.log), [SurfaceWillMount(id)]);
      }
    }

    /** Resets the counter, which silences every callback decorated so far, then notifies the coordinator. */
    method ComponentWillUnmount(shaders: Notifications)
      requires Valid()
      modifies this, shaders
      ensures Valid() && renderId == 0 && history == old(history) + [UnmountOp]
      ensures CapturedTokens(0, history) == CapturedTokens(0, old(history))
      ensures shaders.log == old(shaders.log) + [SurfaceWillUnmount(id)]
      ensures Bracketed(old(shaders.log)) ==> Bracketed(shaders.log)
      ensures forall t :: t in CapturedTokens(0, history) ==> !IsCurrent(t, renderId)
    {
      renderId := 0;
      history := history + [UnmountOp];
      UnmountSilencesAll(0, old(history));
      forall t | t in CapturedTokens(0, history) ensures !IsCurrent(t, renderId) {
        var i :| 0 <= i < |CapturedTokens(0, history)| && CapturedTokens(0, history)[i] == t;
      }
      shaders.OnSurfaceWillUnmount(id);
      if Bracketed(old(shaders.log)) {
        assert Bracketed([SurfaceWillUnmount(id)][1..]);
        BracketedConcat(old(shaders.log), [SurfaceWillUnmount(id)]);
      }
    }

    /**
     * Bumps the counter, checks the props, finds the GL node and runs the pipeline between the "before
     * build" and "after build" notifications; the "after build" notification is sent whether the
     * pipeline succeeds or fails.
     */
    method Render(
      shaders: Notifications, props: Props, getPixelRatio: Props -> real,
      findGLNode: (Children, Context) -> Option<GLNodeLookup>,
      pipeline: BuildRequest -> Result<Resolved, PipelineError>)
      returns (r: Result<Rendered, SurfaceError>)
      requires Valid()
      modifies this, shaders
      ensures Valid()
      ensures renderId == old(renderId) + 1 && history == old(history) + [RenderOp]
      ensures CapturedTokens(0, history) == CapturedTokens(0, old(history)) + [renderId]
      ensures var s := RenderStep(id, renderId, props, getPixelRatio, findGLNode, pipeline);
              r == s.result && shaders.log == old(shaders.log) + s.events
      ensures Bracketed(old(shaders.log)) ==> Bracketed(shaders.log)
    {
      var surface := id;
      renderId := renderId + 1;
      history := history + [RenderOp];
      assert history[..|history| - 1] == old(history);
      var token := renderId;
      ghost var q := BuildRequestOf(surface, token, props, getPixelRatio, findGLNode);
      ghost var step := RenderStep(surface, token, props, getPixelRatio, findGLNode, pipeline);

      var pixelRatio := if props.pixelRatio.Some? && props.pixelRatio.value != 0.0
                        then props.pixelRatio.value else getPixelRatio(props);
      assert pixelRatio == EffectivePixelRatio(props, getPixelRatio);
      if pixelRatio <= 0.0 {
        assert step == Step(Failure(NotStrictlyPositive(PixelRatio)), []) by {
          assert q == Failure(NotStrictlyPositive(PixelRatio));
        }
        return Failure(NotStrictlyPositive(PixelRatio));
      }
      if props.width <= 0.0 {
        assert step == Step(Failure(NotStrictlyPositive(Width)), []) by {
          assert q == Failure(NotStrictlyPositive(Width));
        }
        return Failure(NotStrictlyPositive(Width));
      }
      if props.height <= 0.0 {
        assert step == Step(Failure(NotStrictlyPositive(Height)), []) by {
          assert q == Failure(NotStrictlyPositive(Height));
        }
        return Failure(NotStrictlyPositive(Height));
      }

      var context := Context(props.width, props.height, pixelRatio);
      var glNode := findGLNode(props.children, context);
      if glNode.None? || glNode.value.childGLNode.None? {
        assert step == Step(Failure(NoGLNode), []) by {
          assert q == Failure(NoGLNode);
        }
        return Failure(NoGLNode);
      }
      var request := BuildRequest(glNode.value.childGLNode.value, context, props.preload, glNode.value.via,
                                  surface, token);
      assert q == Success(request);

      shaders.BeforeSurfaceBuild(surface);
      var resolved := pipeline(request);
      shaders.AfterSurfaceBuild(surface);
      ghost var events := [Event.BeforeSurfaceBuild(surface), Event.AfterSurfaceBuild(surface)];
      assert shaders.log == old(shaders.log) + events;
      if Bracketed(old(shaders.log)) {
        BracketedConcat(old(shaders.log), events);
      }
      if resolved.Failure? {
        return Failure(Thrown(resolved.error));
      }
      r := Success(Output(props, pixelRatio, token, resolved.value));
    }

    /**
     * The `decorateOnShaderCompile` closure of the render that captured `token`: it wraps the callback
     * with this surface and that token, and leaves a missing callback as it is.
     */
    method DecorateOnShaderCompile(onShaderCompile: Option<ShaderCompileCallback>, token: nat)
      returns (d: Option<Decorated>)
      requires token in CapturedTokens(0, history)
      ensures d == Decorate(onShaderCompile, id, token)
      ensures d.Some? ==> d.value.surface == id && d.value.token in CapturedTokens(0, history)
    {
      match onShaderCompile
      case None => d := None;
      case Some(cb) => d := Some(Decorated(cb, id, token));
    }

    /**
     * Calls a callback decorated by one of this surface's renders. The user's callback is reached, with
     * the same error and result, only when the decorating render is still the current one.
     */
    method InvokeDecorated(callback: Decorated, error: CompileError, result: CompileResult)
      returns (call: Option<Invocation>)
      requires callback.surface == id && callback.token in CapturedTokens(0, history)
      ensures call.Some? <==> IsCurrent(callback.token, renderId)
      ensures call.Some? ==> call.value == Invocation(callback.original, error, result)
    {
      if callback.token == renderId {
        call := Some(Invocation(callback.original, error, result));
      } else {
        call := None;
      }
    }
  }

  /**
   * Two surfaces never share an id; a callback decorated during one render no longer reaches the user
   * once the same surface has started another render, even one that fails; and after unmounting, the
   * callback of the latest render is silent too.
   */
  method StaleCallbackScenario(
    ids: SurfaceIds, shaders: Notifications, props1: Props, props2: Props, getPixelRatio: Props -> real,
    findGLNode: (Children, Context) -> Option<GLNodeLookup>,
    pipeline: BuildRequest -> Result<Resolved, PipelineError>,
    onShaderCompile: ShaderCompileCallback, error: CompileError, result: CompileResult)
    returns (first: GLSurface, second: GLSurface, late: Option<Invocation>, afterUnmount: Option<Invocation>)
    requires ids.Valid()
    modifies ids, shaders
    ensures first.id != second.id
    ensures late == None && afterUnmount == None
  {
    first := new GLSurface(ids);
    second := new GLSurface(ids);
    first.ComponentWillMount(shaders);
    var r1 := first.Render(shaders, props1, getPixelRatio, findGLNode, pipeline);
    var decorated := first.DecorateOnShaderCompile(Some(onShaderCompile), first.renderId);
    var r2 := first.Render(shaders, props2, getPixelRatio, findGLNode, pipeline);
    late := first.InvokeDecorated(decorated.value, error, result);
    var latest := first.DecorateOnShaderCompile(Some(onShaderCompile), first.renderId);
    first.ComponentWillUnmount(shaders);
    afterUnmount := first.InvokeDecorated(latest.value, error, result);
  }
}
