# CanScan case-analysis core, modelled in Dafny

CanScan is a Flask application in which a clinician uploads a photograph of a skin lesion. A pretrained
image model classifies it as one of `seborrheic_keratosis`, `nevus` or `melanoma`. The result is stored as a
case record ("History") that can later be listed, searched and downloaded as a PDF report. This project
models the case-analysis logic of `app.py`. Flask, Keras, SQLAlchemy, SQLite and FPDF are replaced by explicit
inputs and state.

- `common.dfy` — `Option` and `Result`.
- `text.dfy` — the string operations the routes rely on: `str.rfind`, ASCII lower-casing and substring search.
- `upload.dfy` — `allowed_file`, POSIX `os.path.join` and `os.path.basename`, and the path an upload is saved under.
- `classifier.dfy` — `classes[np.argmax(predictions)]`: the first maximal score picks the class. An empty
  score vector or an index past the vocabulary is an error.
- `records.dfy` — the History row, query clauses (`filter_by(user_id=…)`, `ilike('%q%')`), the recent
  listing, the search, lookup by id, and SQLite's rowid assignment.
- `report.dfy` — the report's lines and the download route's answer.
- `pipeline.dfy` — class `App`, which holds the History table, the user ids and the files on disk. Its methods
  are the `analyze`, `predict` and `delete_account` routes. The file ends with end-to-end lemmas and two worked
  scenarios.

Inputs stand in for the outside world:
- the session's user id is an `Option<nat>`;
- form fields are `Option<string>`;
- the uploaded file is its name;
- the classifier's output is `Option<seq<real>>`, where `None` means loading the image or running the model raised;
- the timestamp is a string;
- the file system is the set of paths that exist.

The model follows what the code does, including these points a reader might not expect:
- The `analyze` and `predict` routes never call `allowed_file` and never sanitise the name. Any non-empty name is
  saved as `UPLOAD_FOLDER` joined with it. Only the profile-picture upload checks the extension.
- `History.query.get(id)` in the report route checks no ownership. `DownloadReport` takes no session at all.
- The session's user id is not checked by `analyze`. Without one, the insert violates `user_id NOT NULL`. The
  exception is caught and no row is created, but the uploaded file stays on disk. SQLite does not enforce the
  foreign key to `user`, so a row may name a user id that has no account.
- New rows get SQLite's rowid: one more than the largest id present, so a deleted last id can be reused.
  Rows are returned in rowid order, which is also insertion order.

## Model

| member | source | states |
|---|---|---|
| `Text.RFind` | app.py:55 | the result is the index of the last occurrence of the character, or -1 exactly when it does not occur |
| `Text.Lower` | app.py:55 | same length; every character is lower-cased individually (ASCII) |
| `Text.ContainsIgnoringCase` | app.py:192 | `ilike('%q%')`: holds exactly when the lower-cased query occurs at some position of the lower-cased name |
| `Text.ContainsMeaning` | app.py:192 | the substring test holds exactly when the query occurs at some position of the text |
| `Text.ContainsIgnoringCaseMeaning` | app.py:192 | the substring test on the lower-cased name and query holds exactly when the lower-cased query occurs at some position of the lower-cased name |
| `Upload.AllowedFile` | app.py:53-55 | `allowed_file`: accepts a name only when its last dot is followed by an allowed extension (`AllowedFileMeaning` gives both directions) |
| `Upload.AllowedFileMeaning` | app.py:53-55 | `allowed_file` holds exactly when some `.` is the last one and the lower-cased text after it is png, jpg, jpeg or gif |
| `Upload.FinalExtensionDecides` | app.py:55 | for `stem.ext` with no dot in `ext`, acceptance depends only on `ext`, whatever dots the stem holds |
| `Upload.NoDotRejected` | app.py:55 | a name without a dot is rejected |
| `Upload.InnerExtensionIgnored` | app.py:55 | `x.png.exe` is rejected |
| `Upload.UpperCaseExtensionAccepted` | app.py:55 | `x.tar.PNG` is accepted: case is ignored |
| `Upload.Join` | app.py:337 | an absolute second part replaces the first; otherwise the result starts with the first part and ends with the second |
| `Upload.Basename` | app.py:225 | the result is a suffix of the path with no `/`, preceded by `/` unless it is the whole path |
| `Upload.StoredPath` | app.py:337 | a name not starting with `/` is saved at `static/uploads/` followed by the name; an absolute name is saved as is |
| `Upload.StoredPathRoundTrip` | app.py:225 | for a name without `/`, the base name of the saved path is the name, and rejoining it gives the saved path again |
| `Upload.SubdirectoryBreaksRoundTrip` | app.py:225 | for `a/b.png` the report looks for `static/uploads/b.png`, not the saved `static/uploads/a/b.png` |
| `Upload.AbsoluteNameLeavesFolder` | app.py:337 | an absolute name such as `/tmp/x.png` is saved outside the upload folder |
| `Upload.PreviewPath` | app.py:402-403 | the preview path ends with the uploaded name, and for a name not starting with `/`, prefixing the `static/` folder gives exactly the path `Predict` saved the file under |
| `Classifier.ArgMax` | app.py:352 | the result is the first index holding the maximum score |
| `Classifier.Classify` | app.py:351-352 | the empty-scores error exactly for an empty vector; an error exactly when the vector is empty or its first maximum lies past the vocabulary; any label it returns is one of the three class names |
| `Classifier.ClassifyPicksFirstMax` | app.py:351-352 | for any first-maximum index `i`, the label is `classes[i]` when `i < 3`, and otherwise the index error |
| `Classifier.ThreeScoresAlwaysLabelled` | app.py:351-352 | three scores always produce a label |
| `Classifier.TieGoesToLowestIndex` | app.py:399-400 | scores 0.5, 0.5, 0.0 select `seborrheic_keratosis` |
| `Records.Where` | app.py:192 | a row is in the result exactly when it is in the table and passes every clause; never longer than the table |
| `Records.WhereAscending` | app.py:195 | filtering keeps rowid order |
| `Records.WhereWhere` | app.py:192 | chaining two filters equals filtering by both clause chains |
| `Records.LoggedIn` | app.py:185 | `if not user_id`: logged in exactly when the session holds an id other than `None` and 0 |
| `Records.Recent` | app.py:163 | at most 4 rows, all in the table and owned by the session's user, forming a prefix of that user's rows in store order; all of them when there are fewer than 4; none without a session |
| `Records.Search` | app.py:188-195 | nothing when logged out; otherwise a row is returned exactly when it belongs to the caller and its patient name contains the query ignoring case, in store order |
| `Records.SearchIsOneQuery` | app.py:190-195 | the empty-query branch agrees with the `ilike` branch, so the empty query lists every row of the caller |
| `Records.RecentIsPrefixOfSearch` | app.py:163 | the recent listing is a prefix of the caller's full listing |
| `Records.Lookup` | app.py:202 | returns a row of the table with the requested id, and nothing exactly when no row has that id |
| `Records.LookupFindsRow` | app.py:202 | in a table in rowid order, looking up a row's id returns that very row |
| `Records.MaxId` | app.py:38 | an upper bound on every id that is attained by a row when the table is non-empty |
| `Records.NextId` | app.py:38 | the new id is at least 1 and larger than every id present |
| `Records.AppendKeepsAscending` | app.py:363-365 | appending a row with a larger id than every present one keeps rowid order |
| `Records.DropOwnedLeavesOthers` | app.py:295-303 | deleting the ids of all of a user's rows leaves exactly the other users' rows |
| `Records.DeletionKeepsOthers` | app.py:295-304 | after deleting a user's rows, every other user's listing is unchanged and that user has none |
| `Report.ImageLocation` | app.py:225 | the report looks for the image directly inside `static/uploads/`, under the base name of the stored path |
| `Report.Render` | app.py:206-233 | five entries: title, `Paciente:`, `Fecha:`, `Condición Predicha:`, then the image exactly when its rebuilt path exists and `Imagen no disponible` otherwise; the output name is `Resultado_Analisis_<name>.pdf` |
| `Report.DownloadReport` | app.py:200-240 | 404 exactly when no row has the id; otherwise the report of a row with that id, whether or not the image exists |
| `Report.DownloadFindsRow` | app.py:202-204 | in a table in rowid order, downloading a row's id gives that row's report |
| `Pipeline.App.constructor` | app.py:46-47 | an empty History table beside the given accounts and files |
| `Pipeline.App.Analyze` | app.py:316-374 | a missing or empty upload fails with nothing saved; otherwise the file is saved; a model or label failure, or a missing session user, fails with no new row; success appends exactly one row (next rowid, session user, `first last`, timestamp, selected label, saved path); earlier rows unchanged, a lookup of the new id returns the new row, and rowid order and the label invariant kept |
| `Pipeline.App.Predict` | app.py:376-407 | same upload checks and save as the analysis; success returns the selected label and `uploads/<name>`; no row is written |
| `Pipeline.App.DeleteAccount` | app.py:287-314 | logged out: nothing changes; a missing user row rolls back the staged deletions; otherwise every row of the user and the user itself are removed and all other rows are kept in order |
| `Pipeline.FormText` | app.py:323 | a sent form value prints as itself, a missing one as `None` |
| `Pipeline.FullName` | app.py:323 | with both fields sent the name is first, a space, last; in every case the two printed values are separated by one space |
| `Pipeline.AnalyzeThenLookup` | app.py:363-365 | create then get: after appending a row with the next rowid, the table stays in rowid order and looking up its id returns exactly that row |
| `Pipeline.StageDeletion` | app.py:299-300 | deleting one more row after the staged ones equals deleting the enlarged id set |
| `Pipeline.ReportShowsAnalysedImage` | app.py:225-228 | the report for a freshly analysed case, whose name has no `/`, shows the very file the analysis saved |

## Left out

- Image preprocessing (resize to 150×150 or 299×299, conversion to an array, a batch axis, division by 255):
  floating-point tensor work inside Keras and NumPy. The classifier's output is an input to the model.
- The classifier itself (`load_model`, `model.predict`). It is opaque, and its failure is the `None` score input.
- Classifier.ArgMax: scores are exact reals, so NaN scores (which `np.argmax` treats as maximal) are not modelled.
- Text.Lower: only ASCII letters are folded. This matches SQLite's `lower()`. For `allowed_file` it gives the same
  answers as Python's `str.lower()`, because no non-ASCII character lower-cases to one of the letters of png, jpg,
  jpeg or gif.
- Records.Search: `%` and `_` inside the query are LIKE wildcards in the real query. The model treats every query
  character literally.
- File-system effects are modelled only as the set of existing paths: `file.save` always succeeds, and
  `pdf.output` and `send_file` are left out. The report is its list of entries, without fonts, cell sizes or
  image placement.
- Report.ImageLocation: paths are compared as strings and never resolved. An uploaded name with `.` or `..`
  segments or a repeated `/` (for example `./b.png`) is saved under one spelling, while the report looks for
  another spelling of the same file (`static/uploads/b.png`). The real `os.path.exists` finds the file and the
  report draws the image; the model shows the placeholder. Names without `/` are unaffected.
- Flask routing, `flash`, `redirect`, templates and the session store. Redirects are the error values of each
  route.
- `commit`/`rollback` is an atomic update of the class's fields. Concurrent requests are not modelled.
- `datetime.now()`: the timestamp is an input string.
- `secure_filename` and the profile-picture upload: not part of the analysis pipeline.
- Registration, login and profile editing: account handling outside the analysis pipeline. The User table is
  reduced to its set of ids.
- Report.DownloadReport: failures inside FPDF are not modelled. In the model a known id always yields a report. The
  route has no `try`, so for a known id the real code answers with a server error when the core Arial font cannot
  encode the patient name (for example `Łukasz`, outside Latin-1), or when FPDF fails to parse the stored image.
- Pipeline.App.constructor: the model always starts from an empty History table. `db.create_all()` keeps an
  existing `database.db`, whose rows the model does not cover. The invariant that every condition is a
  vocabulary name relies on that empty start.
- The `print` logging in the analysis route (saved path, tensor shape, raw predictions, chosen class, error
  message) has no observable effect on state and is not modelled.
- Pipeline.App.Predict: an exception from the model or the label lookup propagates out of the route as a server
  error. Here it is an error value.
