# Image classification page: session reconciler and top-K panel

This project models the two pieces of logic in the single-page image classification app (`app.py`). Everything else on the page is widget layout plus a call into a pretrained classifier.

1. **The session reconciler** (sidebar block, `app.py:40-55`). Every rerun builds the current input list: the uploaded files, with the camera capture appended last when there is one. The reconciler then updates the list remembered in session state under `"uploaded_images"`:
   - When there is no remembered list, or the remembered list is strictly shorter than the current one, the current list replaces it.
   - Otherwise it walks the remembered list with a Python `for` loop. Each element that is not in the current list gets `classified_<name>` written `False` and is then removed with `list.remove`.

   The removal mutates the list being iterated. Python's list iterator advances its index after every step, so the element that slides into the freed slot is never visited on that pass. The model keeps this behaviour. `Reconcile.Sweep` is the specification of the pass, and `Reconcile.Session.Reconcile` runs it as a `while` loop over the session's fields. `list.remove` deletes the first element *equal* to its argument (`Images.RemoveFirst`).
2. **The `classified_<name>` flags** (`app.py:54`, `app.py:66-67`, `app.py:72`). The button callback writes `True` (`Session.SetClassified`). The reconciler only ever writes `False`. The results panel is drawn while the flag is truthy (`Session.IsClassified`).
3. **The top-K panel** (`app.py:78-102`). The panel shows `results[:top_k]` in the classifier's order, with `1 <= top_k <= len(results)`. Only entry 0 is bold. The bar chart's x-labels are the labels of that same prefix (`TopK` module). Scores are an opaque type parameter.

Session state is an explicit `Session` object: `stored: Option<seq<Image>>` (`None` while the key is unset) and `flags: map<string, bool>`. The flag map is keyed by image name, and the name `n` stands for the key `classified_<n>`. An image is an `Image(id, name)` value, and Python's `==` on uploads is equality of that value.

Two behaviours of the code are worth stating plainly; the model keeps both:
- Evicting an image writes `False` under `classified_<name>`; the key is not deleted (`ClearFlags`, `SweepFlags`).
- The removal pass skips the element after each removal, so an image that has left the inputs can stay in the remembered list (`SweepSkipsFollower`, `TwoRemovedLeavesSecond`).

## Model

| member | source | states |
|---|---|---|
| `Images.CurrentInputs` | app.py:40-43 | The current list starts with the uploads in order. Without a camera image it is exactly the uploads. With one, it is one longer and the camera image is the last element. |
| `Images.RemoveFirst` | app.py:55 | `list.remove(x)` on a list holding x: the result is one shorter and loses exactly one copy of x (multiset difference). |
| `Images.RemoveFirstIsSubseq` | app.py:55 | What `list.remove` leaves is an order-preserving subsequence of the list. |
| `Images.RemoveFirstShift` | app.py:55 | `list.remove` deletes the slot of the first occurrence: earlier slots keep their element, later ones take their right neighbour's. |
| `Reconcile.Sweep` | app.py:51-55 | One `for img in stored` pass from index i. It reads `stored[i]` and advances i after every step, and removes each absent image after writing its flag `False`. Its own contract: the list never grows and no flag key disappears. The lemmas below state what it removes (`SweepRemovesVisited`, `SweepRemovesSingle`), what it keeps (`SweepRemovesOnlyAbsent`, `SweepKeepsPassed`, `SweepKeepsSurvivors`), its order (`SweepIsSubsequence`) and its flag writes (`SweepFlags`). |
| `Reconcile.ClearFlags` | app.py:54 | Writing `False` under a set of names: the keys become the old keys plus those names, each of those names maps to false, and every other key keeps its old value. |
| `Reconcile.SweepRemovesOnlyAbsent` | app.py:51-55 | The removal pass only loses elements (sub-multiset of the stored list), and no element of the current list loses any copy. |
| `Reconcile.SweepIsSubsequence` | app.py:51-55 | The removal pass never grows the stored list: its result is an order-preserving subsequence of the stored list and no longer than it. |
| `Reconcile.SweepFlags` | app.py:52-54 | After the pass, the flags are the old flags with `False` written under the name of every image the pass removed, and no other key written. |
| `Reconcile.SweepAllPresent` | app.py:51-55 | When every stored image is still in the current list, the pass leaves both the list and the flags unchanged. |
| `Reconcile.SweepKeepsPassed` | app.py:52-55 | An image that does not occur at index i or later is never visited by the pass from i, so it keeps every copy it had. |
| `Reconcile.SweepSkipsFollower` | app.py:52-55 | For a list without duplicates, when the images at i and i+1 are both absent, the one at i is removed. The one at i+1 shifts into slot i, is never visited, and stays in the stored list. |
| `Reconcile.SweepRemovesVisited` | app.py:52-55 | An absent image the pass visits at slot i is evicted: it loses a copy, and afterwards its flag is present and `False`. |
| `Reconcile.SweepRemovesSingle` | app.py:51-55 | When exactly one image of a duplicate-free stored list has left the inputs, the pass leaves the list with exactly that slot deleted and writes only that image's flag, as `False`. |
| `Reconcile.Survivors` | app.py:51-55 | Reference for what one pass keeps of a duplicate-free list. A present image is kept. An absent one is dropped, and the next image is kept without being visited. In a run of absent images the 1st, 3rd, … are dropped and the 2nd, 4th, … kept. Its contract: never longer than the input and keeps only images of the input. |
| `Reconcile.SweepKeepsSurvivors` | app.py:51-55 | On a duplicate-free list the pass from slot i leaves exactly the visited prefix followed by the `Survivors` of the rest. This fully determines the resulting list, and with `SweepFlags` the resulting flags. |
| `Reconcile.TwoRemovedLeavesSecond` | app.py:46-55 | Stored `[a.jpg, b.jpg]` with an empty input list: one pass leaves `[b.jpg]` and writes only `a.jpg`'s flag, as false. |
| `Reconcile.Session.constructor` | app.py:46 | A new session has no remembered list (the `"uploaded_images"` key is unset) and no flags. |
| `Reconcile.Session.IsClassified` | app.py:72 | `st.session_state.get(f"classified_{name}")` is truthy: an unset key reads as falsy, a set key as its stored boolean. |
| `Reconcile.Session.SetClassified` | app.py:66-67 | The button callback writes `True` under the name's key, changes no other flag and leaves the stored list alone. |
| `Reconcile.Session.Reconcile` | app.py:46-55 | With no stored list, or one shorter than the current list, the stored list becomes exactly the current list and no flag changes. Otherwise the new list and flags are those of one `Sweep` from index 0. They form an order-preserving subsequence, keep every present element, and have `False` written exactly under removed names. The reconciler never makes a flag true. |
| `Reconcile.Session.Rerun` | app.py:40-55 | One sidebar rerun: returns the current list (camera last) and reconciles the session against it. It repeats `Reconcile`'s guarantees: the replace branch stores exactly the current list with flags unchanged; the removal branch equals one `Sweep`, leaves an order-preserving subsequence, writes `False` exactly under removed names and keeps every present element; no flag becomes true. |
| `TopK.Shown` | app.py:89 | `results[:top_k]`: exactly top_k entries, each equal to the classifier's entry at the same index. |
| `TopK.Lines` | app.py:89-95 | One line per shown entry, with the same label and score in the same order; a line is bold exactly when its enumerate index is 0. |
| `TopK.Panel` | app.py:78-95 | The expander appears exactly when the result list is non-empty (`if results:`); when it appears it has top_k lines and the first is the top result, in bold. |
| `TopK.Displayed` | app.py:81-95 | The panel has top_k lines whose labels and scores are the first top_k results in order. Line 0 is bold and no other line is. |
| `TopK.Labels` | app.py:101 | The label list comprehension has one label per entry, in order. |
| `TopK.ChartLabels` | app.py:101 | The chart's x-labels are top_k labels, the k-th being the label of the k-th result. |
| `TopK.DisplayedIsPrefix` | app.py:89-95 | Stripping the emphasis from the displayed lines gives back exactly `results[:top_k]`. |
| `TopK.ChartMatchesDisplayed` | app.py:89-101 | The chart's x-labels have the same length as the displayed lines (top_k) and the same labels in the same order. |
| `TopK.FiveOfFive` | app.py:81-101 | Five results with top_k = 5: the first line is "cat" in bold and the chart's labels are the five labels in order. |

## Left out

- Widget rendering and layout (title, sidebar headers, image previews, buttons, expander, spinner, progress bars, info message). Also how Streamlit keeps session state between reruns: here the state is the explicit `Session` object.
- Loading and calling the pretrained classifier (`app.py:17-27`, `app.py:75`). It is a foreign call, and its result is an input sequence of `Prediction`s.
- PIL decoding and RGB conversion (`app.py:60`) and building the plotly figure (`app.py:98-106`). These are library code that is not part of this model.
- Score arithmetic and formatting: `score*100`, the `:.1f` percentage text, the progress values and the chart's y-values (`app.py:96`, `app.py:102`). Scores are opaque.
- The slider's fixed `value=5` and its per-index widget key (`app.py:85-86`). Streamlit validates the range, so the model requires `1 <= top_k <= |results|`.
- The `uploaded_images is None` branch (`app.py:41-42`). With `accept_multiple_files=True` the upload widget yields a list, possibly empty, so uploads are a `seq`.
- How a button click reaches a name. The callback at `app.py:66-67` binds only `idx` and reads the loop variable's name late. The model exposes the write as `SetClassified(name)`.
- Object identity of uploads, and aliasing. In the replace branch the session holds the same list object as the current list. The model stores the value, which matches because every rerun builds a new input list.
