# A verified model of the 3D die renderer's geometry

`dice.py` draws a six-sided die with matplotlib. Under the drawing code sits a
small amount of exact logic, and that logic is what this project models and
proves things about:

- the unit cube and its six quadrilateral faces (`create_dice_faces`);
- the value each face shows (`face_numbers = [1, 6, 2, 5, 3, 4]`);
- the pip layout table for each value (`get_dot_positions`);
- the projector that places a face's 2D pip centres on the face in 3D
  (`project_dots_to_3d_face`);
- the colour-scheme catalogue, with its fallback to `'classic'`;
- the per-face lighting and shadow tables of the enhanced renderer, and the
  per-face loop that puts the pieces together.

Every coordinate involved is 0, 0.25, 0.5, 0.75 or 1, so coordinates are Dafny
`real`s. Every equality below is exact, with no floating-point tolerance.

Modules, one per file:

- `Geometry` (`geometry.dfy`) holds vectors, the cube's corners and faces, and
  the shape predicates: flat on an axis, parallelogram, unit square, strictly
  inside a face.
- `Pips` (`pips.dfy`) holds the layout table and its lookup.
- `Projection` (`projection.dfy`) holds the projector. The loop of the source
  becomes a `method` with invariants. The lemmas say where a projected pip
  lands.
- `Die` (`die.dfy`) holds the face values, opposite faces, the pips of a face,
  and the enhanced renderer's per-face loop.
- `Colors` (`colors.dfy`) holds the scheme catalogue, the lighting and shadow
  tables, and the colour adjustment.

The projector reads `face_vertices[3]`. Python raises `IndexError` on a face
with fewer than four corners, so `ProjectDotsTo3dFace` requires `|f| >= 4`.

## Model

| member | source | states |
|---|---|---|
| Geometry.CreateDiceFaces | dice.py:10-29 | there are six faces, each of four corners |
| Geometry.FaceCornersOnCube | dice.py:14-27 | every corner of every face is a corner of the unit cube, in {0,1}³ |
| Geometry.FaceIsUnitSquare | dice.py:20-27 | each face is listed in cyclic order: its third corner equals corner 1 + corner 3 − corner 0, and its edges at corner 0 are orthogonal and of length 1 |
| Geometry.FaceEdges | dice.py:20-27 | a face's two edges at corner 0 are unit steps along two different axes |
| Geometry.FaceFlatOnNormal | dice.py:20-27 | each face holds exactly one coordinate constant (its normal axis), so it is axis-aligned and planar |
| Geometry.FlatExactlyOn | dice.py:20-27 | a square whose corners agree on one axis and whose edges run along the other two is flat on that axis and no other |
| Geometry.DiceFacesShape | dice.py:14-27 | the three shape facts above, for all six faces at once |
| Pips.DotPositions | dice.py:31-41 | value n in 1..6 gives exactly n pip centres; any other value gives none (the lookup never fails); every centre lies in [0.25,0.75]² |
| Pips.LayoutsSymmetric | dice.py:33-40 | every layout is unchanged by a half turn of the face |
| Pips.LayoutsDistinct | dice.py:33-40 | no two pips of a layout coincide |
| Pips.CentrePipOnOddFaces | dice.py:33-40 | the centre (0.5, 0.5) is a pip exactly for the values 1, 3 and 5 |
| Projection.ProjectPoint | dice.py:46-52 | the world point for face-local (x, y) on a face: corner 0 plus x times the first edge (corner 1 − corner 0) plus y times the second edge (corner 3 − corner 0); the lemmas below say where it lands |
| Projection.ProjectDotsTo3dFace | dice.py:43-55 | the output has one point per input point, in input order, and point i is corner 0 + x·(corner 1 − corner 0) + y·(corner 3 − corner 0) for input pair i |
| Projection.ProjectCorners | dice.py:46-52 | (0,0), (1,0) and (0,1) go to corners 0, 1 and 3; on a parallelogram (1,1) goes to corner 2 |
| Projection.ProjectStaysInPlane | dice.py:46-52 | on a face flat along an axis, every projected point keeps that coordinate |
| Projection.ProjectCoord | dice.py:52 | each coordinate of a projected point is the affine combination of the corners' coordinates |
| Projection.InsideSquareLandsInsideFace | dice.py:46-52 | a point strictly inside the unit square, projected onto a cube face given by two unit edges, lands in the face's plane, strictly inside it, and inside [0,1]³ |
| Projection.InsideAlong | dice.py:46-52 | the same, one axis at a time |
| Projection.MovingAxis | dice.py:52 | along an axis that one edge moves on, the face spans 0..1 and the projected coordinate lies strictly between |
| Projection.FixedAxis | dice.py:52 | along an axis that neither edge moves on, the projected coordinate equals the face's |
| Projection.EdgeCoords | dice.py:46-47 | an edge moves along an axis exactly when it steps along that axis; the third corner's coordinate is the sum of the two moves |
| Projection.StepAffine | dice.py:52 | the affine coordinate formula stays at the corner when no edge moves, and lies in (0,1) when one does |
| Projection.SquareSpan | dice.py:20-27 | a cube face seen along an axis one edge moves on spans exactly [0,1] |
| Die.FaceNumbers | dice.py:219 | the value each face shows, in face order: 1, 6, 2, 5, 3, 4 |
| Die.FaceNumbersArePermutation | dice.py:219 | the face values are a permutation of 1..6: each value appears on exactly one face |
| Die.OppositeFacesSumToSeven | dice.py:20-27 | two different faces share no corner exactly when they are opposite (0/1, 2/3, 4/5), and exactly then their values sum to 7 |
| Die.PipOnFace | dice.py:241-244 | a pip centre of any layout, projected onto any face, lies strictly inside that face and inside the cube |
| Die.FacePips | dice.py:242-244 | face i gets exactly as many world pips as its value, each the projection of its layout entry, each strictly inside the face; an empty layout skips the projector |
| Die.PlanFaces | dice.py:225-244 | the per-face loop walks faces, base colours, values and lighting factors together, stopping at the shortest; for each face it gives the corners, the lit colour, the shadow opacity, the value and the pips; a lit colour stays valid and never exceeds its base |
| Die.PlanFace | dice.py:226-244 | one iteration of that loop, for face i |
| Colors.SelectScheme | dice.py:208 | the scheme chosen for a name is its catalogue entry, or the classic scheme for an unknown name; either way it has six face colours and every colour is `#rrggbb` |
| Colors.FallbackIsClassic | dice.py:208 | a name selects exactly what `'classic'` selects if and only if it is unknown or is `'classic'` itself |
| Colors.CatalogueWellFormed | dice.py:181-206 | the catalogue holds exactly classic, modern, warm and cool, each of the four literal schemes with six face colours and every colour `#rrggbb` |
| Colors.TablesInRange | dice.py:222-223 | both per-face tables have six entries; every lighting factor is in (0,1] and every shadow opacity is in (0,1) |
| Colors.ScaleChannel | dice.py:229 | a channel in [0,1] scaled by a factor in [0,1] stays between 0 and the channel; factor 1 leaves it unchanged |
| Colors.AdjustColor | dice.py:229 | a colour scaled by a factor in [0,1] stays a valid colour and is no brighter in any channel; factor 1 leaves it unchanged |
| Colors.ShadeFace | dice.py:222-229 | the lit colour of face i is valid and no brighter than its base; the front face (factor 1.0) keeps its base colour |

## Left out

- All drawing is left out: matplotlib figures and axes, `Poly3DCollection`, `plot_surface`, view angles, titles and layout (dice.py:61-126, 211-310). This is rendering through a library outside the model.
- The sphere meshes for the pips (`np.linspace`, `cos`, `sin`) are left out. They are floating-point drawing data.
- The pip radius is left out for the same reason.
- `create_metallic_gradient` is left out. It is a colour-space conversion (`colorsys`) feeding a library colormap.
- `to_rgb` (dice.py:228) is left out. It is a library call. `Die.PlanFaces` takes the base colours as `Rgb` triples, one per face colour of the scheme. `Colors.SelectScheme` proves every scheme colour is well-formed `#rrggbb`, so this conversion has valid input.
- `save_dice_image`, `plt.show` and `print` are left out. They are file and display I/O.
- `animate_dice_rotation` is left out. It only drives the display.
- The `__main__` driver is left out. It only calls the renderers.
- The basic renderer `create_3d_dice` (dice.py:57-126) is left out: its loop, its own face colours (dice.py:70) and its edge colour. Only its face-value table, identical to dice.py:219, is modelled, as `Die.FaceNumbers`.
- The fixed edge colour and alpha of the enhanced renderer's faces are left out. They are drawing parameters.
- Projection.ProjectDotsTo3dFace: requires `|f| >= 4`, because Python raises `IndexError` before projecting anything when a face has fewer corners. The error path is not modelled.
- Python computes coordinates and colours in float64; the model uses exact `real`s. On the die's own coordinates (0, 0.25, 0.5, 0.75 and 1) the two agree, and so do the colour channels at lighting factor 1.0. For a general face, though, the projector equalities (`Projection.ProjectDotsTo3dFace`, `Projection.ProjectCorners`, `Projection.ProjectStaysInPlane`) hold exactly only in reals: with corner 0 at x = 0.7 and corner 1 at x = 0.1, float64 gives 0.7 + 1.0·(0.1 − 0.7) = 0.09999999999999998, not 0.1. The lit channels k/255·factor for the factors 0.9, 0.95, 0.85, 0.92 and 0.88 are likewise rounded in float64; the bounds `Colors.AdjustColor` and `Colors.ShadeFace` state (within [0,1], never brighter) still hold under round-to-nearest, but the exact values do not.
- Pips.DotPositions: its key is an `int`. Python would also accept other hashable keys, such as `True`, which equals 1. Those are not modelled.
