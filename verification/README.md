# Computer graphics labs — a verified model of their logic

The repository is a set of OpenGL/GLUT coursework programs. This project
models the parts of them that compute something rather than draw it:

- **lab4, the ray tracer.** A Cornell-box scene holds spheres, one wooden box
  and five textured walls, with a point light. `Scene::trace` finds the
  nearest hit among spheres, boxes and walls. It then shades that hit:
  - refraction with a Schlick Fresnel blend and an early return;
  - otherwise Phong lighting with a hard shadow;
  - plus mirror or glossy (16-sample) reflection, down to a fixed depth.

  `Scene::render` fires one primary ray per pixel of an 800 × 600 frame and
  writes gamma-corrected bytes. Perlin noise colours the wood.
  - Modules: `Vectors`, `Geometry`, `Materials`, `Noise`, `Scenes`, `Tracer`,
    `Render`.
  - Files: vectors.dfy, geometry.dfy, materials.dfy, noise.dfy, scene.dfy,
    trace.dfy, render.dfy.
- **lab1, the colour picker.**
  - Six draggable parameters (H, S, V and R, G, B) stay in agreement through
    `convert_hsv_rgb` / `convert_rgb_hsv`.
  - In lab1_2 a cube can also be rotated with the mouse and keys, or spin on
    its own.
  - lab1_1 is the same control panel without the cube.
  - Modules: `ColorSpace`, `ColorCases`, `ColorLaws`, `ColorPanel`,
    `ColorPicker`.
  - Files: hsvrgb.dfy, hsvcases.dfy, hsvlaws.dfy, panel.dfy, picker.dfy.
- **lab3, the textured corridor.**
  - BMP row padding and power-of-two texture sizes.
  - The mipmap filter menu.
  - The view state changed by keys and mouse.
  - Module `Mipmap` (mipmap.dfy).
- **lab2, the lighting demo.**
  - The keyboard moves the light and changes its colour.
  - The mouse orbits the camera and the wheel zooms.
  - Module `Lighting` (lighting.dfy).
- **Homework3, the fog scene.**
  - The arrows thicken and thin the fog.
  - The mouse buttons switch two coloured lights.
  - A reshape records the window size.
  - Module `Fog` (fog.dfy).

Shared modules:
- `RealMath` holds exact-real arithmetic and the maths library as a
  parameter.
- `Wrappers` holds `Option`.

C `float`s are exact `real`s. `sqrt`, `pow`, `sin` and `tan` are fields of a
`Libm` value. The predicate `Lawful` states the few facts the proofs need
about them: for `x >= 0`, `sqrt(x)` is non-negative and `sqrt(x)*sqrt(x) == x`;
`sin` stays in [-1, 1]; and `pow` maps [0, 1] × [0, ∞) into [0, 1]. Global variables that
the GLUT callbacks assign become fields of a class:
- `ControlPanel` and `CubeView` for lab1;
- `CorridorView` for lab3;
- `Light` and `Camera` for lab2;
- `FogScene` for Homework3.

Each callback becomes a method whose `ensures` gives the new state as a
function of the old one. Loops over arrays become methods with loop
invariants, proved equal to a recursive specification function. The tracer
recursion is specified by `TraceSpec`/`Shade`, with the `Trace` method proved
equal to them.

Source cells in the table are paths relative to the repository root.

## Model

| member | source | states |
|---|---|---|
| Vectors.MakeRay | lab4/2023080909014_WuXi_lab4.cpp:81-84 | the ray keeps its origin; a non-zero direction is stored as a unit vector pointing the same way (its dot product with the input equals the input's length); a zero direction is kept as is |
| Vectors.LengthZero | lab4/2023080909014_WuXi_lab4.cpp:77 | a vector's length is zero exactly when its squared length is zero |
| Vectors.NormalizeZero | lab4/2023080909014_WuXi_lab4.cpp:72-75 | `normalize` leaves a zero-length vector unchanged (the guard against dividing by 0) |
| Vectors.NormalizeUnit | lab4/2023080909014_WuXi_lab4.cpp:72-75 | a non-zero vector normalizes to unit length, in the same direction |
| Vectors.NormalizeKnownLength | lab4/2023080909014_WuXi_lab4.cpp:72-75 | normalizing a vector of known length k scales it by 1/k |
| Vectors.NormalizeIdempotent | lab4/2023080909014_WuXi_lab4.cpp:72-75 | normalizing twice is normalizing once |
| Vectors.CrossPerpendicular | lab4/2023080909014_WuXi_lab4.cpp:68-70 | the cross product is perpendicular to both factors |
| Vectors.NormalizeKeepsPerpendicular | lab4/2023080909014_WuXi_lab4.cpp:72-75 | normalizing one of two perpendicular vectors keeps them perpendicular |
| RealMath.Clamp01 | lab4/2023080909014_WuXi_lab4.cpp:598-600 | the clamp to [0, 1] used before gamma: the result is in [0, 1], equal to the input inside, and 0 or 1 beyond |
| RealMath.Trunc | lab4/2023080909014_WuXi_lab4.cpp:218-219 | C's float-to-int cast truncates toward zero: for x ≥ 0 the integer part, for negative x the next integer up |
| RealMath.CRem | lab1/2023080909014_WuXi_lab1_2.cpp:524 | C's `%` on int: Euclidean for a ≥ 0, and in (-b, 0] for negative a |
| RealMath.FMod | lab1/2023080909014_WuXi_lab1_2.cpp:549 | `fmodf` with a positive divisor: the result has the sign of x and magnitude below y; it is x itself in [0, y) and x − y in [y, 2y) |
| ColorSpace.HsvToRgb | lab1/2023080909014_WuXi_lab1_2.cpp:510-532 | zero saturation gives the grey (v, v, v) |
| ColorSpace.RgbToHsv | lab1/2023080909014_WuXi_lab1_2.cpp:534-555 | the value is the largest channel; equal channels give hue 0 and saturation 0; otherwise the saturation is in (0, 1] and is the spread over the largest channel |
| ColorSpace.Hue | lab1/2023080909014_WuXi_lab1_2.cpp:548-554 | the hue of a colour with distinct channels is a fraction of a turn in [0, 1) |
| ColorSpace.SatInUnit | lab1/2023080909014_WuXi_lab1_2.cpp:546 | delta / max is in (0, 1] and multiplies back to delta |
| ColorCases.SectorRange | lab1/2023080909014_WuXi_lab1_2.cpp:517-520 | for a hue in [0, 1] the sector is 0..5, so the `% 6` switch always finds its case, and the offset within it is in [0, 1) |
| ColorCases.SextantBounds | lab1/2023080909014_WuXi_lab1_2.cpp:524-531 | every case of the switch puts each channel between p and v |
| ColorCases.ShadesOrdered | lab1/2023080909014_WuXi_lab1_2.cpp:521-523 | p, q and t lie in [p, v] with p = v(1 − s) |
| ColorCases.SextantUnit | lab1/2023080909014_WuXi_lab1_2.cpp:524-531 | with ordered shades and v ≤ 1, every case gives a colour in the unit cube |
| ColorLaws.HueOneIsHueZero | lab1/2023080909014_WuXi_lab1_2.cpp:517 | hue 1 is treated as hue 0 |
| ColorLaws.HsvIgnoresPrev | lab1/2023080909014_WuXi_lab1_2.cpp:524-531 | for a non-negative hue the conversion never falls through the switch: the caller's previous values do not matter |
| ColorLaws.NegativeHueKeepsPrev | lab1/2023080909014_WuXi_lab1_2.cpp:517-531 | a hue in [-5/6, 0) with s ≠ 0 gives a sector from -5 to -1, whose C remainder by 6 is negative, so no case runs and the outputs keep their previous values |
| ColorLaws.WholeTurnBackIsRed | lab1/2023080909014_WuXi_lab1_2.cpp:517-525 | hue -1 gives sector -6, whose remainder is 0, so case 0 runs and s = v = 1 gives pure red (a negative hue does not always keep the outputs) |
| ColorLaws.HsvChannels | lab1/2023080909014_WuXi_lab1_2.cpp:513-531 | every channel of HSV→RGB lies between v(1 − s) and v |
| ColorLaws.ShadeBand | lab1/2023080909014_WuXi_lab1_2.cpp:519-531 | the same band for the coloured (s ≠ 0) branch |
| ColorLaws.GreyBand | lab1/2023080909014_WuXi_lab1_2.cpp:513-516 | the same band for the grey branch |
| ColorLaws.RgbToHsvUnit | lab1/2023080909014_WuXi_lab1_2.cpp:534-555 | a colour in the unit cube converts to H, S, V each in [0, 1] |
| ColorLaws.HsvToRgbUnit | lab1/2023080909014_WuXi_lab1_2.cpp:510-532 | H, S, V in [0, 1] convert to a colour in the unit cube |
| ColorLaws.RgbHsvRoundTrip | lab1/2023080909014_WuXi_lab1_2.cpp:534-555 | RGB → HSV → RGB gives back every colour with non-negative channels exactly |
| ColorLaws.RoundTripRed | lab1/2023080909014_WuXi_lab1_2.cpp:534-555 | the round trip when red is the largest channel |
| ColorLaws.RedHue | lab1/2023080909014_WuXi_lab1_2.cpp:548-549 | with red largest and k = (g - b)/delta, the `fmodf` branch gives hue k/6 when k ≥ 0 and (k + 6)/6 when k < 0, with v·s = delta |
| ColorLaws.RoundTripRedRising | lab1/2023080909014_WuXi_lab1_2.cpp:517-555 | the round trip when red is largest and blue is smallest (sector 0, or sector 1 at hue 1/6) |
| ColorLaws.RoundTripRedFalling | lab1/2023080909014_WuXi_lab1_2.cpp:517-555 | the round trip when red is largest and green is smallest (sector 5) |
| ColorLaws.RoundTripGreen | lab1/2023080909014_WuXi_lab1_2.cpp:534-555 | the round trip when green is the largest channel |
| ColorLaws.GreenHue | lab1/2023080909014_WuXi_lab1_2.cpp:550-551 | with green largest and k = (b - r)/delta in [-1, 1], six times the hue is k + 2, with v·s = delta |
| ColorLaws.RoundTripGreenLow | lab1/2023080909014_WuXi_lab1_2.cpp:517-555 | the round trip when green is largest and blue smallest (sector 1) |
| ColorLaws.RoundTripGreenMid | lab1/2023080909014_WuXi_lab1_2.cpp:517-555 | the round trip when green is largest, red smallest and blue below green (sector 2) |
| ColorLaws.RoundTripGreenHigh | lab1/2023080909014_WuXi_lab1_2.cpp:517-555 | the round trip when green and blue tie for largest (hue 1/2, sector 3) |
| ColorLaws.RoundTripBlue | lab1/2023080909014_WuXi_lab1_2.cpp:534-555 | the round trip when blue is the largest channel |
| ColorLaws.BlueHue | lab1/2023080909014_WuXi_lab1_2.cpp:552-553 | with blue largest and k = (r - g)/delta in [-1, 1), six times the hue is k + 4, with v·s = delta |
| ColorLaws.RoundTripBlueLow | lab1/2023080909014_WuXi_lab1_2.cpp:517-555 | the round trip when blue is largest and red smallest (sector 3) |
| ColorLaws.RoundTripBlueHigh | lab1/2023080909014_WuXi_lab1_2.cpp:517-555 | the round trip when blue is largest and green smallest (sector 4) |
| ColorPanel.DetectParamHit | lab1/2023080909014_WuXi_lab1_2.cpp:99-104 | the parameter's id when the click is inside its box, 0 otherwise |
| ColorPanel.TablesLaid | lab1/2023080909014_WuXi_lab1_2.cpp:20-30 | the initial HSV and RGB tables have ids 1..3 and 4..6 and boxes in two rows |
| ColorPanel.BoxesDisjoint | lab1/2023080909014_WuXi_lab1_2.cpp:99-104 | no click is inside two of the six boxes |
| ColorPanel.HitIdentifies | lab1/2023080909014_WuXi_lab1_2.cpp:470-475 | the sum of the six hit tests is k + 1 exactly when the click is in box k, and 0 exactly when it is in none |
| ColorPanel.HitSumSix | lab1/2023080909014_WuXi_lab1_2.cpp:470-475 | the sum is the six `detect_param_hit` terms added in order |
| ColorPanel.Adjusted | lab1/2023080909014_WuXi_lab1_2.cpp:106-113 | `adjust_param` changes only the active parameter's current value, moves it by delta × increment when that stays in range, and otherwise clamps it to exactly `lower` when the move goes below and exactly `upper` when it goes above |
| ColorPanel.AdjustAll | lab1/2023080909014_WuXi_lab1_2.cpp:106-113 | the six calls apply `Adjusted` to every parameter |
| ColorPanel.ShowHsv | lab1/2023080909014_WuXi_lab1_2.cpp:500-502 | writing an HSV triple into the table makes it read back that triple and changes no other field |
| ColorPanel.ShowRgb | lab1/2023080909014_WuXi_lab1_2.cpp:490-492 | the same for an RGB triple |
| ColorPicker.Dragged | lab1/2023080909014_WuXi_lab1_1.cpp:235-265 | a drag keeps both tables' layout (ids and boxes) |
| ColorPicker.AdjustedLaid | lab1/2023080909014_WuXi_lab1_2.cpp:106-113 | adjusting keeps a table's layout |
| ColorPicker.AdjustedUnit | lab1/2023080909014_WuXi_lab1_2.cpp:109-112 | adjusting keeps every current value in [0, 1] |
| ColorPicker.DraggedUnit | lab1/2023080909014_WuXi_lab1_2.cpp:478-503 | after a drag both tables are still laid out and hold values in [0, 1] |
| ColorPicker.DraggedAgree | lab1/2023080909014_WuXi_lab1_2.cpp:486-503 | after a drag of any of the six parameters the RGB table is what the HSV table converts to: the two halves show one colour |
| ColorPicker.AdjustParam | lab1/2023080909014_WuXi_lab1_2.cpp:106-113 | `adjust_param` on one array cell: that cell becomes `Adjusted`, the others are unchanged |
| ColorPicker.Drag | lab1/2023080909014_WuXi_lab1_2.cpp:478-503 | the body of the motion handler on the two arrays equals `Dragged` and keeps layout and range |
| ColorPicker.AdjustParams | lab1/2023080909014_WuXi_lab1_2.cpp:478-484 | the six `adjust_param` calls: both arrays become `AdjustAll` of their old contents |
| ColorPicker.ShowHsvAsRgb | lab1/2023080909014_WuXi_lab1_2.cpp:487-493 | the RGB array shows the conversion of the HSV array |
| ColorPicker.ShowRgbAsHsv | lab1/2023080909014_WuXi_lab1_2.cpp:495-503 | the HSV array shows the conversion of the RGB array |
| ColorPicker.ControlPanel.constructor | lab1/2023080909014_WuXi_lab1_2.cpp:20-30 | the initial tables and no active parameter |
| ColorPicker.ControlPanel.CtrlMouse | lab1/2023080909014_WuXi_lab1_2.cpp:455-476 | a press in the auto-rotate area toggles the cube's spinning and selects nothing; any other press selects the parameter under the cursor (0 for none) and records y |
| ColorPicker.ControlPanel.SelectAt | lab1/2023080909014_WuXi_lab1_1.cpp:222-229 | the accumulated hit sum selects parameter k + 1 exactly when the click is in box k |
| ColorPicker.ControlPanel.CtrlMotion | lab1/2023080909014_WuXi_lab1_2.cpp:477-508 | with no active parameter nothing changes; otherwise the tables become `Dragged` by the vertical movement and y is recorded |
| ColorPicker.WrapBothInRange | lab1/2023080909014_WuXi_lab1_2.cpp:269-272 | a drag step below one turn, wrapped on both sides, keeps an angle in [0, 360] |
| ColorPicker.WrapAboveInRange | lab1/2023080909014_WuXi_lab1_2.cpp:306-308 | the spin step, wrapped above only, keeps an angle in [0, 360] |
| ColorPicker.WrapFixesRange | lab1/2023080909014_WuXi_lab1_2.cpp:269-272 | both wraps leave an angle already in [0, 360] alone |
| ColorPicker.TurnedInRange | lab1/2023080909014_WuXi_lab1_2.cpp:266-272 | a mouse drag keeps all three rotation angles in [0, 360] |
| ColorPicker.SpunInRange | lab1/2023080909014_WuXi_lab1_2.cpp:300-308 | the idle spin keeps all three angles in [0, 360] |
| ColorPicker.CubeView.constructor | lab1/2023080909014_WuXi_lab1_2.cpp:37-45 | rotation (15, 15, 0), axis z, no button held, spinning |
| ColorPicker.CubeView.Mouse | lab1/2023080909014_WuXi_lab1_2.cpp:235-255 | a press of buttons 0..2 picks that axis and holds the button; a release drops it; the position is recorded |
| ColorPicker.CubeView.Motion | lab1/2023080909014_WuXi_lab1_2.cpp:257-277 | with a button held the cube turns by half a degree per pixel about the chosen axis, auto-rotation stops and the position is recorded; otherwise nothing changes |
| ColorPicker.CubeView.Turn | lab1/2023080909014_WuXi_lab1_2.cpp:264-272 | the rotation becomes `Turned` of the old one |
| ColorPicker.CubeView.Animate | lab1/2023080909014_WuXi_lab1_2.cpp:298-312 | when spinning the rotation becomes `Spun`, otherwise it is unchanged |
| ColorPicker.CubeView.Keyboard | lab1/2023080909014_WuXi_lab1_2.cpp:421-437 | 'a'/'A' toggles spinning, 'r'/'R' resets the rotation to zero, other keys change nothing |
| ColorPicker.CubeView.SpecialKey | lab1/2023080909014_WuXi_lab1_2.cpp:440-452 | F1 toggles spinning, F2 resets the rotation, other keys change nothing |
| ColorPicker.CubeView.ToggleAutoRotate | lab1/2023080909014_WuXi_lab1_2.cpp:459-463 | spinning is switched |
| ColorPicker.CubeView.WrapAngles | lab1/2023080909014_WuXi_lab1_2.cpp:269-272 | the loop wraps each angle on both sides |
| ColorPicker.CubeView.WrapAnglesAbove | lab1/2023080909014_WuXi_lab1_2.cpp:306-308 | the loop wraps each angle above 360 |
| ColorPicker.CubeView.Reset | lab1/2023080909014_WuXi_lab1_2.cpp:430 | the rotation becomes (0, 0, 0) |
| Mipmap.IsPowerOfTwo | lab3/2023080909014_WuXi_lab3.cpp:51-54 | 1 exactly for a positive power of two, 0 for everything else, including 0 and negatives |
| Mipmap.LowestBitTrick | lab3/2023080909014_WuXi_lab3.cpp:53 | for n > 0, `(n & (n - 1)) == 0` holds exactly when n is a power of two |
| Mipmap.RowBytes | lab3/2023080909014_WuXi_lab3.cpp:75-76 | the BMP row size is the smallest multiple of 4 that holds 3 bytes per pixel |
| Mipmap.TextureLayout | lab3/2023080909014_WuXi_lab3.cpp:75-117 | the bytes read are rows × height; an image with a side that is not a power of two, or is too large, is rescaled to 256 × 256 with a 768-byte stride; the texture handed on always has power-of-two sides and a 4-aligned stride that holds its pixels |
| Mipmap.MenuFilter | lab3/2023080909014_WuXi_lab3.cpp:271-280 | each menu entry 10..15 maps to one of the six minification filters |
| Mipmap.ClampPitch | lab3/2023080909014_WuXi_lab3.cpp:257-258 | the pitch is kept in [-89, 89]: unchanged inside, clamped beyond |
| Mipmap.CorridorView.constructor | lab3/2023080909014_WuXi_lab3.cpp:302-309 | every loaded texture starts with trilinear minification and linear magnification; the view starts at rest |
| Mipmap.CorridorView.SpecialKey | lab3/2023080909014_WuXi_lab3.cpp:227-236 | up/down move the depth by ±0.5, left/right turn by ∓0.5 degrees, and an angle that passes 360 is reset to 0; nothing else changes |
| Mipmap.CorridorView.Mouse | lab3/2023080909014_WuXi_lab3.cpp:239-245 | a left press records the position unless the menu is open; nothing else changes |
| Mipmap.CorridorView.Motion | lab3/2023080909014_WuXi_lab3.cpp:248-264 | a move turns the view by 0.1 degree per pixel and tilts it with the pitch clamped; no move changes nothing |
| Mipmap.CorridorView.MenuSelect | lab3/2023080909014_WuXi_lab3.cpp:267-293 | every loaded texture gets the chosen filter, other texture names keep theirs, the menu ends closed and the view is unchanged |
| Mipmap.CorridorView.ApplyFilter | lab3/2023080909014_WuXi_lab3.cpp:283-289 | the loop over the three textures sets the filter of each loaded one and no other |
| Noise.InterpolateBetween | lab4/2023080909014_WuXi_lab4.cpp:173-176 | linear interpolation with t in [0, 1] stays between its ends and hits each end |
| Noise.FadeUnit | lab4/2023080909014_WuXi_lab4.cpp:183-186 | the quintic fade maps [0, 1] into [0, 1] and fixes 0 and 1 |
| Noise.Grad | lab4/2023080909014_WuXi_lab4.cpp:188-199 | hashes whose low four bits are 8..15 give 0; every gradient is bounded by \|x\| + \|y\| |
| Noise.GradLowBits | lab4/2023080909014_WuXi_lab4.cpp:189 | only the hash's low four bits matter |
| Noise.PermTableInRange | lab4/2023080909014_WuXi_lab4.cpp:203 | a permutation table doubled to 512 entries only holds indices below 256 |
| Noise.InitPerlinNoise | lab4/2023080909014_WuXi_lab4.cpp:206-214 | the table becomes the given shuffle of 0..255, repeated in its second half |
| Noise.Shuffle | lab4/2023080909014_WuXi_lab4.cpp:210 | the first half is permuted by sigma; the second half is untouched |
| Noise.PerlinNoise | lab4/2023080909014_WuXi_lab4.cpp:217-233 | the noise value is bounded by 2 in magnitude |
| Noise.CellNoise | lab4/2023080909014_WuXi_lab4.cpp:224-232 | the same bound for one lattice cell |
| Noise.NoiseZeroAtLattice | lab4/2023080909014_WuXi_lab4.cpp:217-233 | the noise is zero at every integer lattice point |
| Noise.NoisePeriodic | lab4/2023080909014_WuXi_lab4.cpp:218-222 | the noise repeats with period 256 on both axes |
| Noise.FloorShift | lab4/2023080909014_WuXi_lab4.cpp:218-222 | shifting by 256 keeps the cell index (mod 256) and the fraction |
| Noise.WoodTextureColor | lab4/2023080909014_WuXi_lab4.cpp:268-303 | the wood colour lies between the dark and the light wood colours channel by channel |
| Scenes.CornellBox | lab4/2023080909014_WuXi_lab4.cpp:632-674 | the built scene has three spheres and one box, all with valid refractive indices |
| Scenes.FloorStripe | lab4/2023080909014_WuXi_lab4.cpp:353-355 | the int-cast stripe index `(int)(z*40) % 2`, with C's truncating cast and C's `%`, is in -1..1 and never negative for z ≥ 0 |
| Scenes.RoomScan | lab4/2023080909014_WuXi_lab4.cpp:342-421 | the walls are tested in the source's order: floor, left, right, back, ceiling |
| Scenes.SphereScanNearest | lab4/2023080909014_WuXi_lab4.cpp:315-326 | the sphere loop ends at a distance no larger than any sphere's hit, and the state it keeps is either the old one or exactly what one sphere writes when it wins (`SphereWon`): that sphere's distance, the ray point there, the radial normal, the sphere's material, `hasHit` and not `isBox` |
| Scenes.BoxScanNearest | lab4/2023080909014_WuXi_lab4.cpp:329-340 | the same for the box loop, with the kept state exactly what one box writes (`BoxWon`): its distance and face normal, the ray point there, the box's material, `hasHit` and `isBox` |
| Scenes.WallStepNearest | lab4/2023080909014_WuXi_lab4.cpp:344-365 | one wall test keeps the nearer of the old hit and the wall's; a replaced state is what the plane writes (`WallWon`): its distance, the ray point, the plane normal, `hasHit`, not `isBox`, and a material carrying the plane's paint at that point |
| Scenes.WallScanNearest | lab4/2023080909014_WuXi_lab4.cpp:342-421 | the wall tests end no farther than any wall hit, and a replaced state is one wall's `WallWon` |
| Scenes.AllWallsTested | lab4/2023080909014_WuXi_lab4.cpp:342-421 | every wall is among those tested |
| Scenes.NearestHitIsNearest | lab4/2023080909014_WuXi_lab4.cpp:315-421 | the hit found is no further than any sphere, box or wall hit, and when there is one the whole kept state (distance, point, normal, material, `isBox`) is the one written by a sphere, box or room plane hit at that distance |
| Scenes.NearestHitValid | lab4/2023080909014_WuXi_lab4.cpp:315-421 | in a valid scene the material found has a positive refractive index |
| Scenes.WallScanValid | lab4/2023080909014_WuXi_lab4.cpp:342-421 | wall hits keep a positive refractive index |
| Scenes.SphereScanValid | lab4/2023080909014_WuXi_lab4.cpp:316-326 | sphere hits keep a positive refractive index |
| Scenes.BoxScanValid | lab4/2023080909014_WuXi_lab4.cpp:329-340 | box hits keep a positive refractive index |
| Scenes.PlaneKeepsRefraction | lab4/2023080909014_WuXi_lab4.cpp:357-361 | a wall hit overwrites colour and coefficients but keeps the previous hit's `isRefractive` flag and `eta` |
| Scenes.PaintTwice | lab4/2023080909014_WuXi_lab4.cpp:349-361 | a plane's paint writes fields whose values depend only on the plane and the point, so painting an already painted material changes nothing |
| Tracer.SurfaceAt | lab4/2023080909014_WuXi_lab4.cpp:426-428 | a box hit gets the wood colour, within the wood range, with its other material fields kept; other hits keep their material |
| Tracer.LocalColor | lab4/2023080909014_WuXi_lab4.cpp:473-525 | an occluded point gets half its ambient term only |
| Tracer.Samples | lab4/2023080909014_WuXi_lab4.cpp:535-538 | one sample for a smooth surface, sixteen for a rough one |
| Tracer.Perturb | lab4/2023080909014_WuXi_lab4.cpp:544-557 | a perturbed glossy direction never points below the surface |
| Tracer.Orient | lab4/2023080909014_WuXi_lab4.cpp:434-443 | after orienting by the side the ray hits from, cos θi ≥ 0 and the index ratio is positive |
| Tracer.Bending | lab4/2023080909014_WuXi_lab4.cpp:445-468 | total internal reflection happens exactly when sin²θt ≥ 1; the refracted and reflected rays start just off the surface on their own sides |
| Tracer.GlossyRay | lab4/2023080909014_WuXi_lab4.cpp:541-560 | a glossy ray starts 0.001 above the hit; a rough surface draws one random vector, a smooth one draws none and reflects exactly |
| Tracer.TraceSpec | lab4/2023080909014_WuXi_lab4.cpp:306-578 | past the depth limit the background is returned; the random stream only moves forward, and not at all at the limit |
| Tracer.Shade | lab4/2023080909014_WuXi_lab4.cpp:309-578 | shading a ray never moves the random stream backwards |
| Tracer.Refracted | lab4/2023080909014_WuXi_lab4.cpp:433-470 | the refraction branch never moves the stream backwards |
| Tracer.GlossySum | lab4/2023080909014_WuXi_lab4.cpp:541-563 | n rough samples advance the stream by at least n |
| Tracer.RefractionCutOff | lab4/2023080909014_WuXi_lab4.cpp:433 | at the maximum depth a hit gets only its local colour |
| Tracer.RefractiveReturnsEarly | lab4/2023080909014_WuXi_lab4.cpp:433-470 | below the cut-off a refractive hit returns the refraction result and never reaches lighting or reflection |
| Tracer.RoughHitDrawsSixteen | lab4/2023080909014_WuXi_lab4.cpp:536-561 | a rough reflective hit draws at least sixteen random vectors |
| Tracer.NoHitGivesBackground | lab4/2023080909014_WuXi_lab4.cpp:423 | a ray that hits nothing gets the background and draws nothing |
| Tracer.FresnelInUnit | lab4/2023080909014_WuXi_lab4.cpp:454-455 | the Schlick weight is in [0, 1] |
| Tracer.FindNearest | lab4/2023080909014_WuXi_lab4.cpp:315-421 | the three loops compute `NearestHit` |
| Tracer.InShadow | lab4/2023080909014_WuXi_lab4.cpp:478-497 | the shadow loops answer exactly whether a sphere or box blocks the light |
| Tracer.Illuminate | lab4/2023080909014_WuXi_lab4.cpp:473-525 | the lighting code computes `LocalColor` |
| Tracer.Trace | lab4/2023080909014_WuXi_lab4.cpp:306-307 | `Scene::trace` computes `TraceSpec` |
| Tracer.ShadeHit | lab4/2023080909014_WuXi_lab4.cpp:309-577 | the shading body computes `Shade` |
| Tracer.SampleGlossy | lab4/2023080909014_WuXi_lab4.cpp:541-563 | the sampling loop computes `GlossySum` |
| Tracer.Refract | lab4/2023080909014_WuXi_lab4.cpp:433-470 | the refraction code computes `Refracted` |
| Tracer.BendRay | lab4/2023080909014_WuXi_lab4.cpp:434-449 | the ray set-up computes `Bending` |
| Render.GammaByte | lab4/2023080909014_WuXi_lab4.cpp:598-606 | with a `pow` that fixes 0 and 1 (`GammaEnds`), channels at or below 0 give byte 0 and at or above 1 give byte 255 |
| Render.CameraBasisOrthogonal | lab4/2023080909014_WuXi_lab4.cpp:583-585 | forward, right and up are pairwise perpendicular |
| Render.CentreRay | lab4/2023080909014_WuXi_lab4.cpp:591-593 | the centre pixel's ray points straight along the forward axis |
| Render.CornellCamera | lab4/2023080909014_WuXi_lab4.cpp:583-585 | for the Cornell box camera the basis is −z, x, y |
| Render.AxisFrame | lab4/2023080909014_WuXi_lab4.cpp:583-585 | the same basis from the two square roots it needs |
| Render.ForwardAxis | lab4/2023080909014_WuXi_lab4.cpp:583 | the camera looks down −z |
| Render.RightAxis | lab4/2023080909014_WuXi_lab4.cpp:584 | its right axis is +x |
| Render.UpAxis | lab4/2023080909014_WuXi_lab4.cpp:585 | its up axis is +y |
| Render.PixelBytes | lab4/2023080909014_WuXi_lab4.cpp:598-606 | three bytes per pixel |
| Render.PrimaryShader | lab4/2023080909014_WuXi_lab4.cpp:595 | tracing at depth 0 is defined on every ray and never moves the stream backwards |
| Render.Frame | lab4/2023080909014_WuXi_lab4.cpp:588-607 | the first y rows and x pixels give 3 bytes each; the stream only moves forward |
| Render.RenderFrame | lab4/2023080909014_WuXi_lab4.cpp:588-609 | the framebuffer ends holding `Frame` of the whole image |
| Render.RenderRow | lab4/2023080909014_WuXi_lab4.cpp:589-607 | one row extends the drawn prefix by one row |
| Render.RenderPixel | lab4/2023080909014_WuXi_lab4.cpp:591-606 | one pixel extends the drawn prefix by one pixel |
| Render.PutPixel | lab4/2023080909014_WuXi_lab4.cpp:598-606 | the pixel's three bytes land right after the bytes before them |
| Render.PixelInFrame | lab4/2023080909014_WuXi_lab4.cpp:603 | every pixel's bytes fit in the buffer |
| Render.PixelsDisjoint | lab4/2023080909014_WuXi_lab4.cpp:603-606 | two different pixels never share a byte |
| Geometry.SphereIntersect | lab4/2023080909014_WuXi_lab4.cpp:103-114 | a reported hit is beyond the self-intersection epsilon |
| Geometry.NearerRoot | lab4/2023080909014_WuXi_lab4.cpp:109-113 | the chosen root is beyond epsilon |
| Geometry.GapIsQuadratic | lab4/2023080909014_WuXi_lab4.cpp:104-107 | \|o + t·d − c\|² − r² is the quadratic with the code's a, b, c |
| Geometry.CoefANonNegative | lab4/2023080909014_WuXi_lab4.cpp:105 | a = d·d is never negative |
| Geometry.Roots | lab4/2023080909014_WuXi_lab4.cpp:108-113 | when a root is chosen the quadratic has exactly the roots t1 ≤ t2, and the choice is t1, or t2 when t1 is within epsilon |
| Geometry.SphereHitNearest | lab4/2023080909014_WuXi_lab4.cpp:103-114 | the reported distance is on the sphere and no point of the ray between epsilon and it is |
| Geometry.NegativeDiscriminantMisses | lab4/2023080909014_WuXi_lab4.cpp:108 | a negative discriminant means the ray never touches the sphere |
| Geometry.BoxTest | lab4/2023080909014_WuXi_lab4.cpp:123-147 | a hit is in [epsilon, 1000]; an empty slab interval is a miss |
| Geometry.BoxIntersect | lab4/2023080909014_WuXi_lab4.cpp:123-166 | the slab code computes `BoxTest` |
| Geometry.NarrowSlabs | lab4/2023080909014_WuXi_lab4.cpp:125-144 | the slab loop computes the entry distance or a miss |
| Geometry.HitNormal | lab4/2023080909014_WuXi_lab4.cpp:149-165 | the face tests compute `BoxNormal` |
| Geometry.FaceNormalNonzero | lab4/2023080909014_WuXi_lab4.cpp:153-165 | a normal set by a face test never has length zero, so the centre-direction fallback runs only when no face test fires |
| Geometry.BoxTestIsSlabIntersection | lab4/2023080909014_WuXi_lab4.cpp:125-147 | for a direction with no zero component, a hit is exactly the intersection of the three slab intervals, entered within range |
| Geometry.FaceNormalOutward | lab4/2023080909014_WuXi_lab4.cpp:154-159 | a face normal is the unit outward normal of a face the point lies on |
| Geometry.EntryHitGetsFallbackNormal | lab4/2023080909014_WuXi_lab4.cpp:154-165 | a hit on a face the ray is entering fails the face test's direction sign and gets the centre-to-point fallback normal |
| Geometry.PlaneIntersect | lab4/2023080909014_WuXi_lab4.cpp:258-265 | a ray nearly parallel to the plane misses; a hit is beyond epsilon |
| Geometry.PlaneHitOnPlane | lab4/2023080909014_WuXi_lab4.cpp:258-265 | the hit lies on the plane, and any point of the ray on the plane beyond epsilon is the hit reported |
| Lighting.Brighter | lab2/2023080909014_WuXi_lab2.cpp:217 | a channel raised by one step is capped at 1 and never lowered |
| Lighting.Dimmer | lab2/2023080909014_WuXi_lab2.cpp:218 | a channel lowered by one step is floored at 0 and never raised |
| Lighting.DimmerUndoesBrighter | lab2/2023080909014_WuXi_lab2.cpp:217-218 | lowering undoes raising when no cap was hit |
| Lighting.KeyedColour | lab2/2023080909014_WuXi_lab2.cpp:217-222 | 'e'/'r', 't'/'y' and 'u'/'i' raise and lower red, green and blue, other keys keep the colour, and a colour in the unit cube stays there |
| Lighting.KeyedPosition | lab2/2023080909014_WuXi_lab2.cpp:211-223 | 'q'/'w' move the light along z by ∓step; no other coordinate changes, and other keys change nothing |
| Lighting.ColourStaysInUnit | lab2/2023080909014_WuXi_lab2.cpp:217-222 | no sequence of keys takes the light colour out of the unit cube |
| Lighting.Light.constructor | lab2/2023080909014_WuXi_lab2.cpp:7-14 | the light starts at (0, 3, 2), white |
| Lighting.Light.Keyboard | lab2/2023080909014_WuXi_lab2.cpp:211-225 | position and colour become `KeyedPosition` and `KeyedColour` with steps 0.5 and 0.1 |
| Lighting.Light.SpecialKey | lab2/2023080909014_WuXi_lab2.cpp:228-236 | up/down move the light along y, left/right along x, by 0.5; other keys change nothing |
| Lighting.LimitPitch | lab2/2023080909014_WuXi_lab2.cpp:249-250 | the pitch is kept in [−π/2, π/2]: unchanged inside, clamped beyond |
| Lighting.LimitPitchIdempotent | lab2/2023080909014_WuXi_lab2.cpp:249-250 | limiting twice is limiting once |
| Lighting.Zoomed | lab2/2023080909014_WuXi_lab2.cpp:260-267 | scrolling up comes 0.5 nearer but not nearer than 1; any other direction goes 0.5 further |
| Lighting.ZoomOutThenIn | lab2/2023080909014_WuXi_lab2.cpp:260-267 | scrolling down then up restores the distance |
| Lighting.ZoomStaysAtLeastOne | lab2/2023080909014_WuXi_lab2.cpp:260-267 | no sequence of wheel events brings the camera nearer than 1 |
| Lighting.Camera.constructor | lab2/2023080909014_WuXi_lab2.cpp:17-23 | the camera starts at distance 2, level, facing forward |
| Lighting.Camera.MouseMotion | lab2/2023080909014_WuXi_lab2.cpp:239-257 | the yaw follows the horizontal movement and the limited pitch the vertical one, at 0.01 per pixel; the position is recorded and the distance kept |
| Lighting.Camera.MouseWheel | lab2/2023080909014_WuXi_lab2.cpp:260-268 | the distance becomes `Zoomed` and stays at least 1 |
| Fog.Thicker | Homework3/homework3_WuXi_2023080909014.cpp:233 | the density rises by 0.02, capped at 1, never lowered |
| Fog.Thinner | Homework3/homework3_WuXi_2023080909014.cpp:237 | the density falls by 0.02, floored at 0, never raised |
| Fog.ThinnerUndoesThicker | Homework3/homework3_WuXi_2023080909014.cpp:232-238 | down undoes up when the cap was not hit |
| Fog.FogKeyed | Homework3/homework3_WuXi_2023080909014.cpp:230-242 | up thickens, down thins, other keys keep the density, and a density in [0, 1] stays there |
| Fog.FogStaysInUnit | Homework3/homework3_WuXi_2023080909014.cpp:232-238 | no sequence of keys takes the density out of [0, 1] |
| Fog.Toggled | Homework3/homework3_WuXi_2023080909014.cpp:245-256 | a left press switches only the red light, a right press only the blue one, anything else neither |
| Fog.ToggledTwice | Homework3/homework3_WuXi_2023080909014.cpp:247-253 | the same press twice restores both lights |
| Fog.StoredHeight | Homework3/homework3_WuXi_2023080909014.cpp:213 | the stored height is never 0 and is the window's height when that is not 0 |
| Fog.ProjectionAspect | Homework3/homework3_WuXi_2023080909014.cpp:223 | the aspect ratio exists exactly for a non-zero divisor, and times the divisor gives the width |
| Fog.UnguardedDivision | Homework3/homework3_WuXi_2023080909014.cpp:212-223 | a zero-height reshape stores 1 but the aspect ratio as written, over the raw height, does not exist |
| Fog.FogScene.constructor | Homework3/homework3_WuXi_2023080909014.cpp:49-53 | both lights on, density 0.05, an 800 × 600 window |
| Fog.FogScene.AdjustViewport | Homework3/homework3_WuXi_2023080909014.cpp:210-227 | the size is stored with the zero-height guard and the aspect ratio, taken over the stored height, always exists |
| Fog.FogScene.Keyboard | Homework3/homework3_WuXi_2023080909014.cpp:230-242 | the density becomes `FogKeyed` and stays in [0, 1] |
| Fog.FogScene.Mouse | Homework3/homework3_WuXi_2023080909014.cpp:245-256 | the two lights become `Toggled` |

## Left out

- Drawing is not modelled. This covers every OpenGL, GLU and GLUT call: drawing, text, display lists, window and menu creation, viewport and projection set-up, lights and fog handed to OpenGL, buffer swaps and redisplay requests. It also covers the `display`/`reshape` callbacks that only draw, such as lab2's scene rendering with its camera placement by `sin`/`cos` (lab2 lines 177-179) and Homework3's `setupLighting`/`setupFog`.
- File and memory handling is not modelled: reading the BMP file, `malloc`/`free`, `gluScaleImage` and `gluBuild2DMipmaps` in lab3, and writing the image file and the progress and timing output in lab4. `Mipmap.TextureLayout` keeps only the sizes these steps compute.
- Homework2 is not part of this model.
- Floating point: `float`/`double` are exact reals, so there is no rounding, no −0.0 and no overflow. `Geometry.BoxTest` models the IEEE infinities and NaN of the slab division explicitly, because the box test depends on them.
- `sqrt`, `pow`, `sin` and `tan` are the `Libm` parameter. Only the facts in `Lawful` are assumed of them.
- Randomness is a parameter. The `std::shuffle` of `p[0..256)` by the clock-seeded `mt19937` generator `rng` is the permutation `sigma`. The glossy jitter, which the source draws from the same `rng` through `dist_neg_pos_one`, is an indexed stream `World.jitter`, and the position reached in it is threaded through the tracer as `cursor`.
- Mipmap.RowBytes: C `int` overflow is not modelled, neither in lab3's `width * 3` and `rowBytes * height` nor in the float-to-int casts (`RealMath.Trunc`).
- Render.RenderFrame: it takes the per-ray shader as a parameter rather than calling the `Tracer.Trace` method. `Render.PrimaryShader` connects the two through `Tracer.TraceSpec`.
- Scenes.RoomScan: the five wall tests are written out in the source; here they are one fold over the list of walls, in the same order.
- ColorSpace.RgbToHsv: requires non-negative channels. The picker's RGB parameters never leave [0, 1], and the C code divides by the largest channel.
- The ESC key of lab1_2 (exit) is left out.
- The label strings of the panel parameters are left out.
- lab1_1 is modelled by `ColorPicker.ControlPanel` with no cube attached (`cube == null`).
- Mipmap.LowestBitTrick: `&` is modelled for non-negative operands only. `Mipmap.IsPowerOfTwo` handles the others by its `num > 0` test, as the source does.
- Mipmap.CorridorView.MenuSelect: requires an entry 10..15, the only values the menu registers. The `isMenuOpen` flag is set and cleared within the one callback, so `Mipmap.CorridorView.Mouse` never sees it set in a single-threaded run.
- The GL texture names of lab3 are a constructor parameter (0 for a texture that failed to load).
- The ambient and specular colours of lab2's light only go to OpenGL and are not kept.
- π is the source's 21-digit decimal, not the real number.
- ColorPicker.Turned: it and `ColorPicker.Spun` state only the length of their result. What they promise about the angles is in `ColorPicker.TurnedInRange` and `ColorPicker.SpunInRange`.
- Lighting.Camera.MouseMotion: the `float` step 0.01f is the exact decimal 0.01, and the light's colour step 0.1f is exactly 0.1.

## Findings

| source | as written | input that shows it | evidently intended | confidence | as-written member | corrected member |
|---|---|---|---|---|---|---|
| Homework3/homework3_WuXi_2023080909014.cpp:213-223 | `adjustViewport` stores `height ? height : 1` to avoid dividing by zero, but then passes `(float)width / height` to `gluPerspective` with the raw height | `adjustViewport(800, 0)`, a window minimised to zero height: the stored height is 1 but the aspect ratio is 800 / 0 | divide by the guarded `screenHeight`, so the aspect ratio always exists | medium, not executed | Fog.UnguardedDivision | Fog.FogScene.AdjustViewport |
