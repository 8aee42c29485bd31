# tripoints: text-to-geometry, modelled in Dafny

tripoints is a demo program in which the user types coordinates into a
"Coords/Tri" text field and presses "Draw". The program then reads the text
as a point (drawn as a sphere), a vector or a triangle. This project models
the two parts of that reading step that are the program's own logic:

- `conditionAsNumeric` (module `Numeric`, `numeric.dfy`). It scrubs a string
  in place. It walks backwards with `find_last_not_of` and erases every
  character outside `chars_num`, which is `CHARS_NUMERIC` followed by ",.-".
  The method models the loop as written: the unsigned `size_type` cursor, the
  `npos` sentinel and the wrap-around of `ptr--` at 0. It is proved to leave
  exactly the input filtered by `chars_num`. Lemmas about that filter give
  the rest: the order is kept, every allowed character is kept, it is
  idempotent, and the length drops by the number of erased characters.
- The parsing part of `add_visualmodels` (module `TriPoints`, `tripoints.dfy`).
  It splits the text on "),(" and picks a shape by the number of parts: one
  part with exactly three comma fields is a point, two parts are a vector,
  three parts are a triangle, and anything else is nothing. The methods keep
  the source's flags and nested loops and are proved against the
  specification function `Classify`. They set at most one flag. The
  `imgui_visual` object is a class with the two fields the step reads and
  writes. `AddVisualModels` clears `needs_visualmodel_rebuild` on every path.

`CHARS_NUMERIC` comes from a library header, so it is the parameter
`numeric`. `mplot::tools::stringToVector` is the function parameter `split`,
and nothing is assumed about it except that it returns a sequence of
strings. `std::atof` is the uninterpreted function parameter `atof`. The
float type it returns is the type parameter `F`.

## Model

| member | source | states |
|---|---|---|
| `Numeric.Dec` | tripoints.cpp:87 | `ptr--` on the unsigned cursor is subtraction modulo 2^64, so 0 wraps to `npos` |
| `Numeric.CharsNum` | tripoints.cpp:81 | `chars_num` holds exactly the characters of `CHARS_NUMERIC` plus ',', '.' and '-' |
| `Numeric.LastNotIn` | tripoints.cpp:85 | the backward search returns the last position below the bound whose character is outside the set, or `npos` exactly when there is none |
| `Numeric.FindLastNotOf` | tripoints.cpp:85 | `find_last_not_of(chars, pos)` returns a position at or before `pos` whose character is outside `chars`, with every later searched character inside it, or `npos` exactly when every character at or before `pos` is inside `chars` |
| `Numeric.Filter` | tripoints.cpp:82-89 | the filtered string is no longer than its input and holds only characters of the set |
| `Numeric.ConditionAsNumeric` | tripoints.cpp:82-89 | the erase loop leaves exactly the input filtered by `chars_num`, so its length drops by the number of characters outside `chars_num` (`FilterLength`); the loop invariant is that every character after `ptr` is allowed, and the loop ends because each pass erases one character |
| `Numeric.FilterConcat` | tripoints.cpp:84-88 | filtering distributes over concatenation, so kept characters stay in their original order |
| `Numeric.FilterErase` | tripoints.cpp:86 | erasing one disallowed character does not change the filtered string |
| `Numeric.FilterFixedPoint` | tripoints.cpp:85 | a string is left unchanged if and only if all its characters are allowed |
| `Numeric.FilterIdempotent` | tripoints.cpp:82-89 | filtering an already filtered string changes nothing |
| `Numeric.FilterLength` | tripoints.cpp:85-87 | the filtered length is the input length minus the number of disallowed characters |
| `Numeric.FilterMultiset` | tripoints.cpp:84-88 | every allowed character keeps all its occurrences and every disallowed character loses all of them |
| `Numeric.FilterIsSubsequence` | tripoints.cpp:84-88 | the result can be obtained from the input by deleting characters only |
| `Numeric.ConditionTwice` | tripoints.cpp:82-89 | running `conditionAsNumeric` on its own result gives the same string, and every character of the result is in `CHARS_NUMERIC` or ",.-" |
| `TriPoints.Classify` | tripoints.cpp:101-137 | a point has 3 coordinates, a vector 2 points of 3 and a triangle 3 points of 3 |
| `TriPoints.ClassifyByPartCount` | tripoints.cpp:101-137 | a point if and only if there is 1 part with exactly 3 fields; a vector if and only if there are 2 parts and a triangle if and only if there are 3, each part having 3 fields; no shape for any other part count |
| `TriPoints.ClassifyReadsScrubbedFields` | tripoints.cpp:109-110 | every coordinate is `atof` of a string made only of `CHARS_NUMERIC` and ",.-" characters |
| `TriPoints.ReadPoint` | tripoints.cpp:118-121 | the inner loop leaves coordinate j equal to `atof` of field j after scrubbing, for j = 0, 1, 2 |
| `TriPoints.ReadPoints` | tripoints.cpp:116-122 | the outer loop leaves row i equal to the point read from part i, for every part |
| `TriPoints.ParseGeometryAsWritten` | tripoints.cpp:93-137 | the source as written, defined only where every part of a 2- or 3-part text has 3 fields: at most one of `have_coord`, `have_vector`, `have_tri` is set, and flags and coordinates are what `Classify` reads |
| `TriPoints.ParseGeometry` | tripoints.cpp:93-137 | the same with the size check added, defined on every text: at most one flag is set, and flags and coordinates are what `Classify` reads |
| `TriPoints.CorrectionAgrees` | tripoints.cpp:114-134 | corollary of the two parses' postconditions: wherever the source as written is defined, the corrected parse gives the same shape |
| `TriPoints.ShortPartIsReadOutOfRange` | tripoints.cpp:116-121 | a split of "(1,2),(3,4,5)" into two parts whose first has two fields makes the source read `p2[2]` out of range |
| `TriPoints.ImguiVisual.constructor` | tripoints.cpp:59-65 | a new visual starts with empty `geom_text` and `needs_visualmodel_rebuild` set |
| `TriPoints.AddVisualModels` | tripoints.cpp:91-169 | the shape handed to the visual-model construction is what `Classify` reads from `geom_text` (with the size check of `ParseGeometry`, so a 2- or 3-part text with a short part gives no shape); `geom_text` is unchanged and `needs_visualmodel_rebuild` is false afterwards, whatever branch was taken |

## Left out

- `prog1.cpp`: ImGui frame drawing, event forwarding and construction of a library geodesic visual, all of it I/O and foreign library calls.
- `gui_draw`, `key_callback_extra`, `mouse_button_callback`, the `imgui_visual` constructor's ImGui set-up and `main`'s render loop: windowing and GUI code. The constructor model keeps only the default member values of `geom_text` and `needs_visualmodel_rebuild`.
- The construction of `SphereVisual`, `VectorVisual` and `TriangleVisual` and the calls to `bindmodel` and `addVisualModel` (tripoints.cpp:140-166): calls into the mathplot library. `AddVisualModels` returns the shape that these calls receive.
- The "Clear" and "Clear Last" buttons: they act on the library-owned model list `vm`.
- `std::atof`: floating-point parsing. It is an uninterpreted function parameter.
- Character width and float narrowing: a `std::string` holds bytes, while the model's strings hold Unicode characters, which agree for an ASCII `CHARS_NUMERIC`. The parameter `atof` stands for `std::atof` followed by the narrowing of its `double` to the `float` stored at tripoints.cpp:110, 120 and 131.
- `mplot::tools::stringToVector`: not part of this model. It is a function parameter with no assumed behaviour.
- Console prints.
- `ConditionAsNumeric` takes the string and returns the new string instead of changing a `std::string&` in place. No other reference to the string exists during the call, so no aliasing is lost.
- `coord`, `vectr` and `tri` start out indeterminate in the source. The model starts them from an arbitrary value, and the contracts say nothing about them when their flag is not set.

## Findings

The one-part branch ignores a part without three comma fields (tripoints.cpp:107). The two- and three-part branches do not check, and read past the end of a short part (tripoints.cpp:118-120, 129-131). The model follows the code.

| source | as written | input that shows it | evidently intended | confidence | as-written member | corrected member |
|---|---|---|---|---|---|---|
| tripoints.cpp:116-132 | the 2- and 3-part branches read `p2[0]`, `p2[1]` and `p2[2]` without checking `p2.size()`, which is undefined behaviour for a part with fewer than 3 comma fields | "(1,2),(3,4,5)": two parts, and the first splits into only "(1" and "2" | a part without 3 fields gives no shape, as the 1-part branch already does through its `p2.size() == 3` check | not executed; the out-of-range read follows from the code | `TriPoints.ParseGeometryAsWritten`, `TriPoints.ShortPartIsReadOutOfRange` | `TriPoints.ParseGeometry` (used by `AddVisualModels`), `TriPoints.CorrectionAgrees` |
