# Elevyx landing-page script: a Dafny model

This project models the three self-contained pieces of logic in the landing
page's `script.js`:

- **The particle background.** A pool of 40 glow particles is created once
  from random draws. On every animation frame each particle moves by its
  velocity. A velocity component is negated when the new position lies more
  than 20 units outside the canvas. The position itself is never corrected.
  A viewport resize changes the canvas size and nothing else.
- **The navigation highlighter.** On scroll, a backwards scan picks the last
  page section (index 1 or above) whose top is at most 140 pixels below the
  scroll position, falling back to section 0. All navigation links lose
  `active`, and the first link whose href is `#` plus that section's id
  (or `#home` when the id is empty) gains it.
- **The contact form's `mailto:` link.** The body lines are name, email,
  company (only when given), a blank line, a prompt, and the message (or a
  placeholder). Empty lines are dropped, the rest are joined with `%0D%0A`,
  and the result is placed in a fixed URL addressed to `elevyxagency@gmail.com`.

Files:

- `wrappers.dfy`: `Option`.
- `particles.dfy` (module `Particles`): the per-axis dynamics, the pool,
  initialisation, and the class `ParticleField` holding the canvas size and
  the particle array.
- `nav.dfy` (module `Nav`): the section scan, the link lookup, and the class
  `NavBar` with the links' `active` flags.
- `mailto.dfy` (module `Mailto`): body lines, filtering, joining, and the URL.
  It also has two readers used to state round-trip lemmas: splitting the
  body at line breaks, and parsing the URL back.

Consequences of the code:

- The initial velocity range is half-open, [-0.125, 0.125): a draw of 0
  gives exactly -0.125 (`VelocityRange`).
- A particle left more than one step beyond the margin by a shrinking resize
  flips its velocity every frame and never re-enters (`StrandedForever`).
- Particles reflect at the margin; they do not wrap around.

The soft-margin bound holds whenever one step is no longer than the band is
wide (`|v| <= width + 40`). Particles from initialisation satisfy this with
room to spare.

## Model

| member | source | states |
|---|---|---|
| `Particles.AxisStep` | script.js:27-31 | The displacement is exactly the old velocity (no clamping). Speed is kept. The velocity is negated when the new position is outside [-20, extent + 20] and kept otherwise. |
| `Particles.Step` | script.js:26-31 | The radius is unchanged; x/vx follow the one-axis rule with the width, y/vy with the height, each independently. |
| `Particles.TickAll` | script.js:26-31 | A frame keeps the pool's length; each particle's new record depends only on its own old record and the canvas size. |
| `Particles.TicksDecouple` | script.js:26-31 | After n frames: same pool size, every radius unchanged, and each axis of each particle equals n one-axis steps of that axis alone. |
| `Particles.AxisIter` | script.js:26-31 | Repeated frames on one axis: the velocity after any number of ticks is the initial one or its negation, so speed never grows or decays. |
| `Particles.Ticks` | script.js:26-31 | Repeated frames: no particle is created or destroyed and no radius changes, for any number of frames. |
| `Particles.NearBandStep` | script.js:27-31 | One tick preserves "within one step of [-20, extent + 20], and heading inward when outside it", when the speed is at most extent + 40. |
| `Particles.NearBandKept` | script.js:27-31 | Soft-margin invariant: the same band property holds after any number of ticks. |
| `Particles.StrandedPeriodTwo` | script.js:27-31 | A particle further outside than one step is still outside after one tick and is back at the same position and velocity after two. |
| `Particles.StrandedForever` | script.js:27-31 | Such a particle alternates between two states for ever and is outside the margin after every tick (what a shrinking resize leaves behind). |
| `Particles.DriftInside` | script.js:27-31 | If the start and the end of an n-step straight drift are inside the band, n ticks give exactly that drift with no reflection. |
| `Particles.ReflectionDoesNotClamp` | script.js:27-30 | At width + 25 moving at 0.1, one tick gives width + 25.1 with velocity -0.1. |
| `Particles.DriftThenReflect` | script.js:27-30 | On an 800-wide canvas, from x = 0 at -0.1: x = -0.1 after 1 tick; the velocity is unchanged for 200 ticks; after tick 201, x = -20.1 and the velocity is +0.1. |
| `Particles.Spawn` | script.js:13-19 | From draws in [0,1): radius in [0.5, 2.5); x in [0, width) (0 on a zero-width canvas); same for y; vx, vy in [-0.125, 0.125). |
| `Particles.VelocityRange` | script.js:17-18 | -0.125 is produced by a zero draw; +0.125 is produced by no draw. |
| `Particles.SpawnAll` | script.js:13-19 | One particle per record of draws, in order. |
| `Particles.SpawnedPoolStaysNear` | script.js:12-31 | For a freshly spawned pool on a fixed canvas, after any number of ticks every x is in [-20.125, width + 20.125] and every y in [-20.125, height + 20.125], heading inward when beyond the margin. |
| `Particles.ParticleField.constructor` | script.js:12-19 | The canvas gets the given size; the array is newly allocated and holds exactly the 40 spawned particles. |
| `Particles.ParticleField.Resize` | script.js:5-10 | The canvas takes the new size; the particle array is unchanged and the pool keeps its 40 slots. |
| `Particles.ParticleField.Tick` | script.js:26-31 | The array is updated in place to one frame of the old contents at the current canvas size; its length stays 40. |
| `Particles.ParticleField.Run` | script.js:21-46 | n frames in a row give the n-fold frame of the old contents. |
| `Nav.LastReached` | script.js:149-151 | The result is the highest index in 1..k whose offset is <= scrollY + 140, or 0 when there is none; index 0 is never tested. |
| `Nav.SelectActiveSection` | script.js:148-151 | No sections: failure (the host error). Otherwise an index i < n with offset[i] <= scrollY + 140 when i > 0, and every later section's offset above it. Offsets need not be sorted. |
| `Nav.Anchor` | script.js:155 | The section's id when it is non-empty, and "home" when it is empty; never empty. |
| `Nav.FirstLink` | script.js:156 | The first link in document order whose href equals the target, or none when no link has it. |
| `Nav.NavBar.constructor` | script.js:145-146 | The sections and links are the given ones; the flag array is newly allocated with one given flag per link. |
| `Nav.NavBar.Highlight` | script.js:148-158 | No sections: fails and leaves every flag unchanged. Otherwise a link is active iff it is the first link whose href is "#" plus the chosen section's anchor. |
| `Nav.AtMostOneActive` | script.js:153-157 | With flags as Highlight leaves them, at most one link is active, and it has the target href. Any later link with the same href is inactive. |
| `Mailto.RawLines` | script.js:199-205 | Six lines before filtering: the fourth is always blank; the third is blank exactly when no company is given; the others are never blank; a given message is the last line. |
| `Mailto.KeepNonEmpty` | script.js:206 | Only non-empty lines remain. Every non-empty line of the input remains. Nothing is added. |
| `Mailto.KeepNonEmptyAppend` | script.js:206 | Filtering distributes over concatenation; one line is kept iff it is non-empty. Together these fix order and repetitions. |
| `Mailto.KeepNonEmptyCounts` | script.js:206 | Each non-empty line is kept as often as it occurs; empty lines occur zero times. |
| `Mailto.Join` | script.js:208 | Joining nothing gives the empty string. The first line opens the result, followed by the separator when more lines follow. |
| `Mailto.Body` | script.js:208 | The body opens with the name line, a line break, the email line and a line break. |
| `Mailto.MailtoUrl` | script.js:209 | The URL begins with the fixed recipient prefix, has the subject right after it, and ends with the body. |
| `Mailto.BodyLinesShape` | script.js:199-206 | The sent lines are name, email, company only when non-empty, the prompt, and the message or "(not provided)". The blank line is always dropped, giving 5 lines with a company and 4 without. |
| `Mailto.SplitJoin` | script.js:208 | Splitting the `%0D%0A`-join back at `%0D%0A` gives the original lines, when no line contains `%0D%0A`. |
| `Mailto.BodyRoundTrip` | script.js:199-208 | A mail client splitting the body at the encoded line break recovers exactly the sent lines, when no field contains one. |
| `Mailto.MailtoRoundTrip` | script.js:209 | Parsing the URL gives the fixed recipient prefix, the subject and the body unchanged, when the subject has no '&'. |

## Left out

- Canvas drawing: clearing, the dark fill, and the radial-gradient glow of radius `radius * 8`. These are rendering calls with no state of their own.
- Frame scheduling with `requestAnimationFrame`, and the resize and scroll listeners. These are host event plumbing. `Run` models consecutive frames; `Resize` models one resize notification.
- `Math.random`: the draws are parameters, required to be in [0, 1).
- Floating-point rounding: coordinates are reals. Exact results such as `width + 25.1` hold in the original only up to rounding.
- DriftThenReflect: comparisons exactly on the margin can go the other way in binary64. Adding -0.1 to 0 two hundred times gives -20.000000000000014, which is below -20, so the original flips the velocity on frame 200 (x about -19.9 after frame 201); in real arithmetic x is exactly -20 after frame 200 and the flip comes on frame 201.
- Particles are records in array slots. In the original they are objects, but nothing else refers to them, so no aliasing is lost.
- The scroll animations and parallax, the modal open/close, and the hover effects of the call-to-action buttons. These call an animation library or toggle classes on DOM nodes.
- Percent-encoding throws a `URIError` on a lone surrogate in a field, which aborts the submit before any URL is built. That error path is not modelled: Dafny characters cannot be lone surrogates.
- String trimming and percent-encoding are not modelled. `Form` holds the already trimmed and encoded fields. The emptiness tests are done on those values, which matches the original because encoding maps only the empty string to the empty string.
- The subject is a parameter of `MailtoUrl`: the encoding of the fixed subject line is not computed.
- The final navigation to the `mailto:` URL and the closing of the modal.
- The href lookup uses an attribute selector built from the section id. Ids containing quote characters, which would change the selector, are not modelled: the lookup is exact string equality.
- Layout is not modelled: section offsets and the scroll position are inputs.
