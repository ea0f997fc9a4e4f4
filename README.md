# Tiled texture plane and frame grabber

This is a model of the integer and index logic of two Python 2 classes.

`tiledTexture` textures a plane with a JPEG image. The image is cut into
`kernel * kernel` tiles so that VTK does not subsample one large texture.
`createTexture` walks the tiles in row-major order with a cursor
(`cur_x`, `cur_y`) that moves one band (`w/step` or `h/step` pixels) at a time.
It clamps each tile's pixel box to the image. From the box it derives the
volume of interest (VOI) to extract and the corners of the plane, which overlap
the next tile by one pixel. For every tile it appends six pipeline objects to
six lists. The constructor builds the 4x4 pose `T`:
- the rotation block;
- the centre in the translation column.

It then copies `T` into a VTK matrix with `StoreAsMatrix4x4`.

`grabVideo` keeps the `.jpg` names of a folder in natural order.
`getNextFile` moves an index on and returns the path of the file at that index.

The project has four modules:

- `PyArith` (`py_arith.dfy`) has the Python 2 operators the tiling relies on:
  - floor division `/` and modulo `%` (Dafny's own are Euclidean);
  - `int()` applied to a float, which truncates toward zero.

  It also has six lemmas about them. Three of these are used by the other
  modules: `FloorModSign`, `DivModUnique` and `MulMono`.
- `Tiling` (`tiling.dfy`) holds the tile arithmetic as pure functions: the
  cursor, the clamped box, the VOI and the plane corners of tile `i`, and the
  two forms of the size check. The lemmas prove:
  - the closed form of the cursor, and where rows start;
  - neighbouring tiles abut;
  - the borders are reached;
  - the tiles partition the image exactly when `step` divides both sides, and
    leave pixels uncovered otherwise.
- `TiledTextures` (`tiled_texture.dfy`) has the class `TiledTexture`:
  - the six lists are `seq` fields, and `T` and the transform matrix are
    `array2<real>` fields;
  - the VTK objects are records that keep what the code sets on them and what
    they are connected to;
  - `CreateTexture` is the loop of the source, proved to append exactly the
    pipelines of tiles `0 .. step*step-1` in order;
  - `StoreAsMatrix4x4` is the nested copy loop.
- `VideoFrames` (`grab_video.dfy`) has the class `GrabVideo` with the suffix
  filter loop and the index state machine. It also has pure functions and
  lemmas describing the sequence of calls.

Choices where the source leaves something open:

- `kernel == 0` makes `createTexture` raise `ZeroDivisionError` in the size
  check. In the model, `CreateTexture` then returns `ok == false` and appends
  nothing, and `TiledTexture.New` returns `null`.
- A negative `kernel` is run with Python's floor semantics.
- The default arguments `center = [0,0,0]`, `direction = [0,0,1]` and
  `kernel = 4` are default parameter values of `Init`, `New` and
  `CreateTexture`. The rotation parameter comes before them.
- The class's `__init__` is split in two:
  - `TiledTexture.Init` covers lines 60-88;
  - `TiledTexture.New` is the whole constructor, including the call of
    `createTexture`.
- The returned `warned` flag of `CreateTexture` is the intended size check
  `SizeWarning`. The check as written is `AsWrittenSizeWarning` (see Findings).
- `getNextFile` is modelled as written (`GetNextFile`) along with the evidently
  intended wrap-around (`GetNextFileLooping`). As written, the first call after
  construction returns `files[1]`, and so does the corrected version. The
  docstring ("return the path to the next image file") is read as allowing
  that, so it is not listed as a finding.

## Model

| member | source | states |
|---|---|---|
| PyArith.FloorDiv | tiledTexture.py:128-136 | definition of Python 2's `/` on integers (`w/step`, `h/step`), with no contract of its own; `FloorDivBounds` and `FloorModSign` state its meaning |
| PyArith.FloorMod | tiledTexture.py:126 | definition of Python's `%` (`i%step`), with no contract of its own; `FloorModSign` states its meaning |
| PyArith.FloorDivBounds | tiledTexture.py:128-136 | the floor quotient is the largest multiple of the divisor not past the dividend, on the side of the divisor's sign |
| PyArith.FloorModSign | tiledTexture.py:126 | Python's `i % step` satisfies the division equation with the floor quotient, takes the sign of the divisor, and is zero exactly when `step` divides `i` |
| PyArith.Trunc | tiledTexture.py:113 | `int(x)` on a float is the integer next to `x` toward zero |
| Tiling.CursorAt | tiledTexture.py:117-130 | definition of the cursor of tile `i`, following the loop's three branches, with no contract of its own; `CursorClosedForm` and `RowStarts` state its meaning |
| Tiling.CursorClosedForm | tiledTexture.py:117-130 | with a positive step, tile `i`'s cursor is column `i mod step` times `w/step` and row `i div step` times `h/step` (row-major order) |
| Tiling.RowStarts | tiledTexture.py:123-130 | on an image at least `step` pixels wide and high, the cursor returns to x = 0 and moves down exactly when `i mod step == 0`, and moves right exactly otherwise |
| Tiling.TileBox | tiledTexture.py:133-136 | every tile box is clamped inside the image: `0 <= xmin`, `xmax <= w-1`, `0 <= ymin`, `ymax <= h-1` |
| Tiling.TileFromBox | tiledTexture.py:143-148 | definition of the VOI `[xmin, xmax, ymin, ymax, 0, 0]` and the plane corners, with no contract of its own; `RowNeighbours` and `ColumnNeighbours` state the one-pixel overlap, and `PipelinesUpToAt` states where each value goes |
| Tiling.TileAtClosedForm | tiledTexture.py:126-136 | with a positive step and `i < step*step` the clamp never bites: tile `i` is exactly the band rectangle of its column and row |
| Tiling.RowNeighbours | tiledTexture.py:130-145 | within a row, `xmax + 1` of tile `i` is `xmin` of tile `i+1`, the rows agree, and the plane corners overlap by one pixel |
| Tiling.ColumnNeighbours | tiledTexture.py:126-145 | tile `i` and tile `i+step` below it abut vertically, share their columns, and their plane corners overlap by one pixel |
| Tiling.BordersReached | tiledTexture.py:112-136 | when no warning is due, the first column and row start at 0 and the last column and row end at `w-1` and `h-1` |
| Tiling.ExactCover | tiledTexture.py:112-136 | when no warning is due, every pixel of the image lies in exactly one of the `step*step` tiles, the one in its band column and row |
| Tiling.UncoveredWhenWarned | tiledTexture.py:112-136 | when `step` does not divide `w` or `h`, the bottom-right pixel lies in no tile |
| Tiling.SizeWarning | tiledTexture.py:112-114 | the intended check fires exactly when `w mod step != 0` or `h mod step != 0` |
| Tiling.AsWrittenSizeWarning | tiledTexture.py:113 | definition of the check as written, with no contract of its own; `AsWrittenWarningNeverFires` and `AsWrittenWarningMissesUnevenWidth` state its meaning |
| Tiling.AsWrittenWarningNeverFires | tiledTexture.py:113 | the check as written is false for every image size when the step is positive |
| Tiling.AsWrittenWarningMissesUnevenWidth | tiledTexture.py:113 | a 5 by 4 image with kernel 4: the intended check fires and the one as written does not |
| TiledTextures.StoreAsMatrix4x4 | tiledTexture.py:29-41 | the result is a newly allocated 4x4 matrix whose element `(i, j)` equals `marray[i, j]` for all `0 <= i, j < 4`; an array smaller than 4x4 is the `IndexError` case, a null result |
| TiledTextures.PipelineFor | tiledTexture.py:141-171 | definition of the six objects of one tile and their connections, with no contract of its own; `PipelinesUpToAt` states them for every tile |
| TiledTextures.TilePipelines | tiledTexture.py:109-110 | a step of `step` yields exactly `step*step` tile pipelines |
| TiledTextures.PipelinesUpToAt | tiledTexture.py:141-171 | pipeline `k` extracts tile `k`'s VOI, its plane has tile `k`'s normal, centre and corners, and the extractor, texture, plane mapper, mapper and actor are connected in that pipeline |
| TiledTextures.TiledTexture.AddPipeline | tiledTexture.py:174-179 | one append to each of the six lists extends the lists read side by side by exactly one pipeline |
| TiledTextures.TiledTexture.CreateTexture | tiledTexture.py:102-179 | kernel 0 raises (nothing appended). Otherwise the lists grow by exactly `kernel*kernel` entries, namely the pipelines of tiles `0 .. kernel*kernel-1` in order, and `warned` is the size check's verdict |
| TiledTextures.TiledTexture.Init | tiledTexture.py:60-87 | empty lists, image size and vectors stored. `T` holds the rotation block, `center` in the translation column and `[0,0,0,1]` in the last row, with no other entry touched; the transform matrix is a newly allocated matrix equal to `T` entry by entry |
| TiledTextures.TiledTexture.New | tiledTexture.py:51-89 | the constructor yields an object exactly when `kernel != 0`. The object holds the path, the image size, the centre and the direction, the pose `T`, a transform matrix equal to `T` entry by entry (the user matrix of every actor), and one pipeline per tile |
| VideoFrames.EndsWith | grabVideo.py:16 | definition of `str.endswith`, with no contract of its own; `EndsWithConcat` states its meaning |
| VideoFrames.EndsWithConcat | grabVideo.py:16 | a name ends in the suffix exactly when it is some string followed by the suffix |
| VideoFrames.JpgNames | grabVideo.py:15-17 | the filter loop's result on a listing, never longer than the listing; `JpgNamesCount` states which names it keeps |
| VideoFrames.JpgNamesCount | grabVideo.py:15-17 | every listed name ending in `.jpg` is kept as many times as it is listed, and no other name is kept |
| VideoFrames.JpgNamesMembers | grabVideo.py:15-17 | a name is kept exactly when it is listed and ends in `.jpg` |
| VideoFrames.JpgNamesExample | grabVideo.py:16 | the suffix test is case-sensitive: `1.JPG` and `3.jpeg` are dropped, and the order of the listing is kept |
| VideoFrames.GrabVideo.constructor | grabVideo.py:12-20 | `folder` is the path, `idx == 0`, and `files` is the natural sort of the filtered names, and so a permutation of them |
| VideoFrames.NextIndex | grabVideo.py:24-26 | the new index is at most `len(files)` and is `(idx + 1) mod (len(files) + 1)` |
| VideoFrames.Fetch | grabVideo.py:27 | definition of the lookup `os.path.join(folder, files[idx])`, with no contract of its own; what it yields call by call is stated by `CallFails`, `CallServes` and `GetNextFile` |
| VideoFrames.GrabVideo.GetNextFile | grabVideo.py:23-27 | the index moves as `NextIndex`, the result is the lookup at the new index, `idx <= len(files)` afterwards, and only `idx` changes |
| VideoFrames.IndexAfterCycle | grabVideo.py:20-26 | after `k` calls from construction the index is `k mod (len(files) + 1)` |
| VideoFrames.CallFails | grabVideo.py:24-27 | call `k` raises `IndexError` exactly when `k mod (len(files) + 1) == len(files)` |
| VideoFrames.CallServes | grabVideo.py:24-27 | call `k` with `k mod (len(files) + 1) == j < len(files)` returns file `j` |
| VideoFrames.FirstCall | grabVideo.py:20-27 | the first call after construction returns `files[1]`, and raises `IndexError` with fewer than two files |
| VideoFrames.AsWrittenFailsAtEnd | grabVideo.py:25-27 | with two files the second call raises `IndexError` |
| VideoFrames.NextIndexLooping | grabVideo.py:9 | with the intended `>=` test, the index stays below `len(files)` and is `(idx + 1) mod len(files)` |
| VideoFrames.IndexAfterLoopingCycle | grabVideo.py:9 | with the intended test, after `k` calls the index is `k mod len(files)` |
| VideoFrames.LoopingServes | grabVideo.py:9 | with the intended test, every call on a non-empty folder returns file `k mod len(files)` and never fails |
| VideoFrames.GrabVideo.GetNextFileLooping | grabVideo.py:9 | the corrected method always returns a file of a non-empty folder, and fails only on an empty one |

## Left out

- VTK objects (`vtkJPEGReader`, `vtkPlaneSource`, `vtkExtractVOI`, `vtkTexture`, `vtkTextureMapToPlane`, `vtkPolyDataMapper`, `vtkActor`, `vtkTransform`): foreign library objects. They are records holding what the code sets and connects. Their own semantics are not modelled: what `SetCenter` does to the other plane points, the rendering, and the reader that feeds every extractor.
- The `vtkTransform` is modelled as the 4x4 matrix that `StoreAsMatrix4x4` returns, shared by every actor.
- `R_2vect` from `rotation_matrix` is not part of this model. The rotation it writes into `T` is the parameter `rotation`, assumed to write only the upper-left 3x3 block.
- `cv2.imread` is image I/O: the width and height of the image are parameters.
- `int(kernel)` of a non-integer kernel: `kernel` is an integer in the model.
- Floating point: the float `1.0*w/step` of the size check is an exact real. The double quotient itself differs from the exact one (for example `1.0*1/3`). But while `|w|` and `|h|` are below 2^53, `int()` of the double quotient equals `int()` of the exact quotient, which is all the check uses.
- The `print` of the warning is I/O: its verdict is returned as `warned`.
- `xmid` and `ymid` are computed and never used.
- `updateImage` depends on `cv2.imread` and `np.transpose` shape semantics, which are library behaviour.
- `getActors` only returns the list of actors, which is the field `actors` of the model.
- `vtkTimerCallback`, the `__main__` block, the render window and the timer: an event loop and command-line handling.
- `os.listdir` is I/O: the listing is the parameter `listing`, in whatever order the system returns it.
- `os.path.join` is the pair `Join(folder, name)`.
- `natsorted` is a library sort. It is a function parameter required to return a permutation of its argument; its natural order is not modelled.
- Tiling.CursorClosedForm, Tiling.RowStarts, Tiling.TileAtClosedForm, Tiling.RowNeighbours, Tiling.ColumnNeighbours, Tiling.BordersReached, Tiling.ExactCover, Tiling.UncoveredWhenWarned and Tiling.AsWrittenWarningNeverFires are stated for `step >= 1` only. The source accepts a negative kernel, and the model runs it with Python's floor semantics, but it then yields only degenerate boxes, and no lemma describes them.
- VideoFrames.GrabVideo.constructor: states that `files` is a permutation of the filtered names, not that it is in natural order, because `natsorted`'s ordering is outside the model.

## Findings

| source | as written | input that shows it | evidently intended | confidence | as-written member | corrected member |
|---|---|---|---|---|---|---|
| tiledTexture.py:113 | `int(1.0*w/step) - w/step == 0` compares the truncated float quotient with the Python 2 floor quotient. These are equal for every positive step, so the warning never fires | `w = 5`, `h = 4`, `kernel = 4`: 4 does not divide 5, and no warning is printed | warn when `w mod step != 0` or `h mod step != 0`, as the comment at line 112 says | not executed | Tiling.AsWrittenWarningMissesUnevenWidth | Tiling.SizeWarning |
| grabVideo.py:25 | the index is reset only when `idx > len(files)`, so an index equal to `len(files)` reaches the lookup at line 27 | two files: the second call evaluates `files[2]` and raises `IndexError` | reset when the index reaches `len(files)` (`>=`), so that the calls loop as the docstring at line 9 says | not executed | VideoFrames.AsWrittenFailsAtEnd | VideoFrames.LoopingServes |
