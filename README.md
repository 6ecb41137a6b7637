# GL.Surface render generations and lifecycle

A Dafny model of the `GL.Surface` component of gl-react (`src/createSurface.js`). It covers how a surface:

- gets its id from a module-level counter starting at 1;
- bumps its render counter `_renderId` on every render attempt, before any check;
- decorates shader-compile callbacks so that only callbacks from the current render reach the user;
- silences every outstanding callback on unmount by resetting the counter to 0;
- checks that pixel ratio, width and height are strictly positive;
- brackets the shader-graph pipeline between the coordinator's "before build" and "after build"
  notifications, with "after build" sent on every exit path;
- hands the backend its descriptor, including `renderId` and `nbContentTextures`.

Modules:

- `Wrappers`: `Option` and `Result`.
- `Shaders`: the notifications sent to the `Shaders` coordinator, kept as a ghost log. `Bracketed` says
  that every "before build" is followed at once by the matching "after build".
- `Generations`: the render counter as a function of the history of render attempts and unmounts,
  the tokens that renders capture, and the lemmas about which captured tokens are current.
- `SurfaceSpec`: one render as a value. `RenderStep` gives the result and the notifications sent.
  The pipeline (`build`/`fill`/`resolve`), the GL-node lookup and the backend's `getPixelRatio` are
  function parameters. The pipeline returns its result or the error it throws; the lookup returns a
  node or nothing; `getPixelRatio` always returns a number.
- `CreateSurface`: the class `GLSurface` with fields `id` and `renderId`, its lifecycle methods and
  `Render`, proved against `RenderStep`; the class `SurfaceIds` for the module counter.

A `pixelRatio` prop of 0 does not fail the check: `pixelRatioProps || getPixelRatio(props)` treats it as
falsy, so the backend's pixel ratio is checked instead (`ZeroPixelRatioPropFallsBack`).

The reset to 0 on unmount silences old callbacks only because the host never renders an unmounted
component again. A render after an unmount would capture token 1 again and revive a callback from the
first render (`RenderAfterUnmountCapturesOne`, `RenderAfterUnmountRevivesFirstToken`).

## Model

| member | source | states |
|---|---|---|
| `CreateSurface.SurfaceIds.constructor` | src/createSurface.js:12 | the id counter starts at 1 and no id has been issued |
| `CreateSurface.GLSurface.constructor` | src/createSurface.js:25-29 | a new surface takes the counter's value as its id, which was never issued before; the counter goes up by 1; the render counter starts at 0 |
| `CreateSurface.GLSurface.ComponentWillMount` | src/createSurface.js:30-32 | exactly one "will mount" notification for this surface's id is logged; a well-bracketed log stays well bracketed |
| `CreateSurface.GLSurface.ComponentWillUnmount` | src/createSurface.js:33-36 | the render counter becomes 0, no token is captured, every token captured so far (so every callback this surface decorated) is no longer current, and one "will unmount" notification is logged |
| `CreateSurface.GLSurface.Render` | src/createSurface.js:45-129 | the counter goes up by exactly 1 whatever the outcome and the new value is the token this render captures; the result and the notifications are those of `RenderStep` for the new counter value; a well-bracketed log stays well bracketed |
| `CreateSurface.GLSurface.DecorateOnShaderCompile` | src/createSurface.js:63-67 | the closure of a render wraps a given callback with this surface's id and that render's captured token, and returns a missing callback as it is |
| `CreateSurface.GLSurface.InvokeDecorated` | src/createSurface.js:65-67 | for a callback this surface decorated, the user's callback is called, with the same error and result, if and only if the captured token equals the current counter |
| `CreateSurface.StaleCallbackScenario` | src/createSurface.js:24-67 | two constructed surfaces have different ids; a callback decorated in one render and invoked after a second render of the same surface does nothing, even when the second render fails; after unmount the latest render's callback does nothing either |
| `Shaders.Notifications.OnSurfaceWillMount` | src/createSurface.js:31 | appends one "will mount" event for the surface |
| `Shaders.Notifications.OnSurfaceWillUnmount` | src/createSurface.js:35 | appends one "will unmount" event for the surface |
| `Shaders.Notifications.BeforeSurfaceBuild` | src/createSurface.js:88 | appends one "before build" event for the surface |
| `Shaders.Notifications.AfterSurfaceBuild` | src/createSurface.js:105 | appends one "after build" event for the surface |
| `Shaders.BracketedConcat` | src/createSurface.js:87-106 | joining two well-bracketed logs gives a well-bracketed log, so no sequence of renders leaves a "before build" without its "after build" |
| `Generations.CapturedTokensPositive` | src/createSurface.js:47 | every token a render captures is at least 1, because the counter is bumped before it is read |
| `Generations.RunConcat` | src/createSurface.js:34-47 | the counter and the captured tokens after two stretches of history are those of the first stretch continued by the second |
| `Generations.CounterWithinMount` | src/createSurface.js:47 | with no unmount, each render adds exactly 1 to the counter, and the i-th render captures start + i + 1 |
| `Generations.OnlyLatestRenderIsCurrent` | src/createSurface.js:47-67 | with no unmount, a captured token is current if and only if it belongs to the latest render |
| `Generations.LaterRenderMakesStale` | src/createSurface.js:47-73 | any later render attempts without an unmount make the token of an earlier render stale, whether or not those renders pass the checks |
| `Generations.UnmountSilencesAll` | src/createSurface.js:33-36 | after an unmount the counter is 0, no token is captured by it, and no previously captured token is current |
| `Generations.RenderAfterUnmountCapturesOne` | src/createSurface.js:34-47 | whatever the history, a render after an unmount sets the counter to 1 and captures token 1 |
| `Generations.FirstRenderCapturesOne` | src/createSurface.js:27-47 | the first render of a surface whose counter starts at 0 captures token 1 |
| `Generations.RenderAfterUnmountRevivesFirstToken` | src/createSurface.js:27-47 | were a surface rendered again after an unmount, the token of its very first render would be current again |
| `Generations.CounterIsLatestToken` | src/createSurface.js:27-47 | a counter started at 0 is either 0 or the token captured by the latest render |
| `SurfaceSpec.EffectivePixelRatio` | src/createSurface.js:69 | the pixel ratio is the prop when it is given and non-zero, otherwise the backend's `getPixelRatio(props)` |
| `SurfaceSpec.FirstNonPositive` | src/createSurface.js:71-73 | reports pixel ratio, width and height in that order: the first that is not strictly positive, or none when all three are positive (each case an if-and-only-if) |
| `SurfaceSpec.Decorate` | src/createSurface.js:63-65 | a missing callback is returned unchanged and nothing is installed; a given one is wrapped with its surface's id and the render's token |
| `SurfaceSpec.BuildRequestOf` | src/createSurface.js:69-99 | a failed positivity check reports that field; once all checks pass, the only failure is "no GL node"; a request exists if and only if all checks pass and a GL node with a child node is found; the request carries the found child node and `via`, a strictly positive context, the surface id, the render's token and the `preload` prop |
| `SurfaceSpec.ContentsOf` | src/createSurface.js:114-115 | one content descriptor per content subtree, numbered from 0 in order, sized by the resolved data |
| `SurfaceSpec.Output` | src/createSurface.js:112-129 | the container gets width, height, style, `visibleContent` and `eventsThrough`; the contents are `ContentsOf`; the GL descriptor gets the passed-through props, width, height, the pixel ratio in effect, the resolved data and images, `nbContentTextures` equal to the number of content subtrees, the render's token as `renderId`, and the `opaque`, `visibleContent` and `eventsThrough` props |
| `SurfaceSpec.RenderStep` | src/createSurface.js:86-129 | notifications are sent if and only if the build is reached, and then they are exactly "before build" then "after build" for the surface; a check failure is reported with no notification; a pipeline error is reported unchanged; success happens if and only if the pipeline succeeds, and then the output is `Output` of the resolved pipeline result, with the render's token as `renderId`, `nbContentTextures` equal to the number of content subtrees, and the resolved data |
| `SurfaceSpec.ZeroPixelRatioPropFallsBack` | src/createSurface.js:69-71 | a zero `pixelRatio` prop is replaced by the backend's pixel ratio; when that one is positive, the pixel-ratio check passes |

## Left out

- The shader-graph pipeline `build`/`fill`/`resolve` lives in `./data`, which is not part of this model. It is a total function parameter that returns a result or an error. The pipeline's own properties (topological order, shared sub-results, cycle detection, deferred values) are out of scope.
- `findGLNodeInGLComponentChildren` is not part of this model. It is a parameter that returns an optional node; absence, or a falsy `childGLNode`, is the "no GL node" error.
- `invariantStrictPositive` is not part of this model. It is taken to reject values that are not `> 0`. Its message text is replaced by the name of the failing field.
- `src/data/pickReactFirstChild.js` is left out. It depends on `React.Children.count`, whose semantics are not modelled.
- The internals of the `Shaders` coordinator are left out. Its four hooks only append to a ghost log and never throw.
- React plumbing is left out: `Component`, `refs`, `propTypes` and `defaultProps`. Props arrive with their defaults already applied. The backend callbacks `renderVcontainer`, `renderVcontent` and `renderVGL` are modelled as the arguments they receive.
- `captureFrame` and `getGLCanvas` are left out. `captureFrame` delegates to the canvas object, and fails through `invariant` when the canvas has no `captureFrame`.
- Exceptions thrown by `getPixelRatio`, `findGLNodeInGLComponentChildren` or the backend callbacks `renderVcontainer`, `renderVcontent` and `renderVGL` are not modelled. In the code such an exception aborts `render` after the counter bump, and for the backend callbacks after both build notifications.
- `logResult` and the `debug` prop are left out. This is console output that does not affect the result.
- JavaScript numbers are `real`. NaN is not modelled, though a NaN `pixelRatio` prop is falsy and would fall back to the backend's value.
- The user's shader-compile callback is not run. `InvokeDecorated` returns the call it would make, or `None` when it suppresses the call.
- `DecorateOnShaderCompile` is a method the caller invokes with a captured token; which callbacks the pipeline decorates during a build is not modelled.
- The `GLSurface` factory's parameters (`renderVcontainer`, `renderVcontent`, `renderVGL`, `getPixelRatio`) are not fields. `getPixelRatio` is a parameter of `Render`.
