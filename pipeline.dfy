/** The state the routes change — the History and User tables and the upload folder — and the routes
    that change it: `analyze`, `predict` and `delete_account`. */
module Pipeline {
  import opened Common
  import opened Upload
  import opened Classifier
  import opened Records
  import opened Report

  /** How an analysis or preview request ends without a result. */
  datatype RequestError =
    | NoFilePart                  // no 'file' part in the request
    | EmptyFilename               // a file part with an empty name
    | ModelFailed                 // loading the saved image or running the model raised
    | LabelFailed(LabelError)     // np.argmax or the class lookup raised
    | CommitFailed                // the insert was refused: no user id in the session (user_id is NOT NULL)

  /** The preview page's data: the predicted condition and the image path handed to the template. */
  datatype Preview = Preview(condition: string, imagePath: string)

  /** How `delete_account` ends. */
  datatype DeleteOutcome = NotLoggedIn | DeleteFailed | AccountDeleted

  /** Python's f-string rendering of a form value: a missing field prints as `None`. */
  function FormText(v: Option<string>): (r: string)
    ensures v.Some? ==> r == v.value
    ensures v.None? ==> r == "None"
  {
    match v
    case None => "None"
    case Some(s) => s
  }

  /** `f"{patient_first_name} {patient_last_name}"`. */
  function FullName(first: Option<string>, last: Option<string>): (r: string)
    ensures first.Some? && last.Some? ==> r == first.value + " " + last.value
    ensures |r| == |FormText(first)| + 1 + |FormText(last)| && r[|FormText(first)|] == ' '
  {
    FormText(first) + " " + FormText(last)
  }

  class App {
    /** The History table, in rowid order. */
    var histories: seq<History>
    /** The ids of the rows of the User table. */
    var userIds: set<nat>
    /** The paths of the files present on disk. */
    var files: set<string>

    /** Rows are in rowid order and every recorded condition comes from the class vocabulary. */
    ghost predicate Valid()
      reads this
    {
      Ascending(histories) && forall h :: h in histories ==> h.condition in Classes
    }

    /** An empty History table beside the given accounts and files. */
    constructor (userIds: set<nat>, files: set<string>)
      ensures Valid()
      ensures this.histories == [] && this.userIds == userIds && this.files == files
    {
      this.histories := [];
      this.userIds := userIds;
      this.files := files;
    }

    /** The `analyze` route. The upload is saved before the image is classified, so a later failure leaves
        the file behind but never a row; success appends exactly one new row and changes no other. */
    method Analyze(session: Option<nat>, firstName: Option<string>, lastName: Option<string>,
                   upload: Option<string>, scores: Option<seq<real>>, now: string)
      returns (out: Result<History, RequestError>)
      requires Valid()
      modifies this
      ensures Valid()
      ensures userIds == old(userIds)
      ensures upload.None? ==> out == Err(NoFilePart) && files == old(files)
      ensures upload == Some("") ==> out == Err(EmptyFilename) && files == old(files)
      ensures upload.Some? && upload.value != "" ==> files == old(files) + {StoredPath(upload.value)}
      ensures upload.Some? && upload.value != "" && scores.None? ==> out == Err(ModelFailed)
      ensures upload.Some? && upload.value != "" && scores.Some? && Classify(scores.value).Err? ==>
        out == Err(LabelFailed(Classify(scores.value).error))
      ensures upload.Some? && upload.value != "" && scores.Some? && Classify(scores.value).Ok? && session.None? ==>
        out == Err(CommitFailed)
      ensures out.Ok? <==>
        upload.Some? && upload.value != "" && scores.Some? && Classify(scores.value).Ok? && session.Some?
      ensures out.Ok? ==>
        out.value == History(NextId(old(histories)), session.value, FullName(firstName, lastName), now,
                             Classify(scores.value).value, StoredPath(upload.value))
      ensures out.Ok? ==> histories == old(histories) + [out.value]
      ensures out.Ok? ==> Lookup(histories, out.value.id) == Some(out.value)
      ensures out.Err? ==> histories == old(histories)
    {
      var patientFullName := FullName(firstName, lastName);
      if upload.None? {
        return Err(NoFilePart);
      }
      var filename := upload.value;
      if filename == "" {
        return Err(EmptyFilename);
      }
      var filepath := StoredPath(filename);
      files := files + {filepath};
      if scores.None? {
        return Err(ModelFailed);
      }
      var predicted := Classify(scores.value);
      if predicted.Err? {
        return Err(LabelFailed(predicted.error));
      }
      if session.None? {
        return Err(CommitFailed);
      }
      var h := History(NextId(histories), session.value, patientFullName, now, predicted.value, filepath);
      AnalyzeThenLookup(histories, h);
      histories := histories + [h];
      return Ok(h);
    }

    /** The `predict` route: save the upload and classify it, recording nothing. */
    method Predict(upload: Option<string>, scores: Option<seq<real>>) returns (out: Result<Preview, RequestError>)
      modifies this
      ensures histories == old(histories) && userIds == old(userIds)
      ensures upload.None? ==> out == Err(NoFilePart) && files == old(files)
      ensures upload == Some("") ==> out == Err(EmptyFilename) && files == old(files)
      ensures upload.Some? && upload.value != "" ==> files == old(files) + {StoredPath(upload.value)}
      ensures upload.Some? && upload.value != "" && scores.None? ==> out == Err(ModelFailed)
      ensures out.Ok? <==> upload.Some? && upload.value != "" && scores.Some? && Classify(scores.value).Ok?
      ensures out.Ok? ==> out.value == Preview(Classify(scores.value).value, PreviewPath(upload.value))
      ensures out.Err? && upload.Some? && upload.value != "" && scores.Some? ==>
        out == Err(LabelFailed(Classify(scores.value).error))
    {
      if upload.None? {
        return Err(NoFilePart);
      }
      var filename := upload.value;
      if filename == "" {
        return Err(EmptyFilename);
      }
      files := files + {StoredPath(filename)};
      if scores.None? {
        return Err(ModelFailed);
      }
      var predicted := Classify(scores.value);
      if predicted.Err? {
        return Err(LabelFailed(predicted.error));
      }
      return Ok(Preview(predicted.value, PreviewPath(filename)));
    }

    /** The `delete_account` route. Each of the user's rows is deleted in turn, then the user; when the user
        row is missing the session rolls back and nothing changes. */
    method DeleteAccount(session: Option<nat>) returns (out: DeleteOutcome)
      requires Valid()
      modifies this
      ensures Valid()
      ensures files == old(files)
      ensures !LoggedIn(session) ==> out == NotLoggedIn
      ensures LoggedIn(session) ==> out == (if session.value in old(userIds) then AccountDeleted else DeleteFailed)
      ensures out == AccountDeleted ==>
        histories == Where(old(histories), [UserIsNot(session.value)]) && userIds == old(userIds) - {session.value}
      ensures out != AccountDeleted ==> histories == old(histories) && userIds == old(userIds)
    {
      if !LoggedIn(session) {
        return NotLoggedIn;
      }
      var uid := session.value;
      var mine := Where(histories, [UserIs(Some(uid))]);
      var pending := histories;
      WhereKeepsAll(histories, [IdNotIn({})]);
      assert IdSet(mine[..0]) == {};
      var i := 0;
      while i < |mine|
        invariant 0 <= i <= |mine|
        invariant unchanged(this)
        invariant pending == Where(histories, [IdNotIn(IdSet(mine[..i]))])
      {
        StageDeletion(histories, IdSet(mine[..i]), mine[i].id);
        IdSetStep(mine, i);
        pending := Where(pending, [IdNotIn({mine[i].id})]);
        i := i + 1;
      }
      if uid !in userIds {
        return DeleteFailed;
      }
      assert mine[..i] == mine;
      DropOwnedLeavesOthers(histories, uid);
      WhereAscending(histories, [UserIsNot(uid)]);
      histories := pending;
      userIds := userIds - {uid};
      return AccountDeleted;
    }
  }

  lemma IdSetStep(rows: seq<History>, i: nat)
    requires i < |rows|
    ensures IdSet(rows[..i + 1]) == IdSet(rows[..i]) + {rows[i].id}
  {
    assert rows[..i + 1] == rows[..i] + [rows[i]];
  }

  /** Deleting one more row from the rows staged so far is deleting the enlarged id set. */
  lemma StageDeletion(hs: seq<History>, ids: set<nat>, id: nat)
    ensures Where(Where(hs, [IdNotIn(ids)]), [IdNotIn({id})]) == Where(hs, [IdNotIn(ids + {id})])
  {
    WhereWhere(hs, [IdNotIn(ids)], [IdNotIn({id})]);
    ShortChains(IdNotIn(ids + {id}), IdNotIn(ids + {id}));
    forall h | h in hs
      ensures MatchesAll(h, [IdNotIn(ids)] + [IdNotIn({id})]) <==> MatchesAll(h, [IdNotIn(ids + {id})])
    {
      assert [IdNotIn(ids)] + [IdNotIn({id})] == [IdNotIn(ids), IdNotIn({id})];
      ShortChains(IdNotIn(ids), IdNotIn({id}));
    }
    WhereExt(hs, [IdNotIn(ids)] + [IdNotIn({id})], [IdNotIn(ids + {id})]);
  }

  /** Create then get: the row an analysis appends, with the next rowid, is what a lookup of its id returns,
      and the table stays in rowid order. */
  lemma AnalyzeThenLookup(hs: seq<History>, h: History)
    requires Ascending(hs) && h.id == NextId(hs)
    ensures Ascending(hs + [h])
    ensures Lookup(hs + [h], h.id) == Some(h)
  {
    AppendKeepsAscending(hs, h);
    LookupFindsRow(hs + [h], h);
  }

  /** End to end: the report for a freshly analysed case shows the very file the analysis saved, as long as
      the uploaded name holds no `/`. */
  lemma {:induction false} ReportShowsAnalysedImage(hs: seq<History>, files: set<string>, h: History, filename: string)
    requires Ascending(hs)
    requires h.id == NextId(hs) && h.imagePath == StoredPath(filename) && '/' !in filename
    ensures DownloadReport(hs + [h], files + {h.imagePath}, h.id) ==
      Sent(Render(h, files + {h.imagePath}))
    ensures Render(h, files + {h.imagePath}).entries[4] == Image(h.imagePath)
  {
    AppendKeepsAscending(hs, h);
    DownloadFindsRow(hs + [h], files + {h.imagePath}, h);
    StoredPathRoundTrip(filename);
  }

  /** The worked case: Ana Diaz's `mole.jpg` is recorded under her full name, with the condition of the
      highest score and the saved path, and its report shows that image. */
  method AnaDiazScenario()
  {
    var app := new App({1}, {});
    var out := app.Analyze(Some(1), Some("Ana"), Some("Diaz"), Some("mole.jpg"), Some([0.1, 0.2, 0.7]),
                           "15/10/2026 10:00:00");
    ClassifyPicksFirstMax([0.1, 0.2, 0.7], 2);
    assert out.Ok?;
    var h := out.value;
    assert h.patientName == "Ana Diaz" && h.condition == "melanoma";
    assert h.imagePath == "static/uploads/mole.jpg";
    ReportShowsAnalysedImage([], {}, h, "mole.jpg");
    assert app.histories == [] + [h];
    var report := DownloadReport(app.histories, app.files, h.id);
    assert report.Sent? && report.pdf.entries[4] == Image(h.imagePath);
  }

  /** Once the image file is gone the report still comes, with the placeholder; an unknown id gets 404. */
  method MissingImageScenario()
  {
    var app := new App({1}, {});
    var out := app.Analyze(Some(1), Some("Ana"), Some("Diaz"), Some("mole.jpg"), Some([0.1, 0.2, 0.7]),
                           "15/10/2026 10:00:00");
    ClassifyPicksFirstMax([0.1, 0.2, 0.7], 2);
    assert out.Ok?;
    var h := out.value;
    var gone := DownloadReport(app.histories, {}, h.id);
    assert gone.Sent? && gone.pdf.entries[4] == Line(Placeholder);
    var missing := DownloadReport(app.histories, app.files, h.id + 1);
    assert missing == NotFound(NotFoundMessage, 404);
  }
}
