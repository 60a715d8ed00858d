/** The "create a movie" screen: the checks it makes before sending the form, the poster it
    keeps from a file chooser or a drop, and the error it shows. */
module CreateMovieScreen {
  import opened Wrappers
  import opened Strings
  import opened Json
  import opened MovieValidation
  import opened FileUpload
  import opened MoviesApi

  const FILL_REQUIRED := "Please fill in all required fields"
  const INVALID_YEAR := "Please enter a valid year"
  const CREATE_FAILED := "Failed to create movie"
  /** The latest year accepted is this many years after the current one. */
  const YEARS_AHEAD_ON_SCREEN := 10

  /** The checks before sending: both fields filled in, and the year text read by
      `parseInt` (radix chosen from the text) a number from 1800 to ten years after
      `currentYear`. The year read, or the message shown. */
  function CheckSubmission(title: string, yearText: string, currentYear: int): (r: Result<int, string>)
    ensures title == "" || yearText == "" ==> r == Failure(FILL_REQUIRED)
    ensures title != "" && yearText != "" ==>
      (r.Success? <==> ParseInt(yearText, true).Some? && 1800 <= ParseInt(yearText, true).value <= currentYear + YEARS_AHEAD_ON_SCREEN)
    ensures r.Success? ==> r.value == ParseInt(yearText, true).value
    ensures r.Failure? && title != "" && yearText != "" ==> r.error == INVALID_YEAR
  {
    if title == "" || yearText == "" then Failure(FILL_REQUIRED)
    else
      match ParseInt(yearText, true)
      case None => Failure(INVALID_YEAR)
      case Some(year) =>
        if year < 1800 || year > currentYear + YEARS_AHEAD_ON_SCREEN then Failure(INVALID_YEAR)
        else Success(year)
  }

  /** A year the screen lets through passes the server's year check, as long as the server
      started in the same year. */
  lemma AcceptedYearPassesServer(title: string, yearText: string, currentYear: int)
    requires CheckSubmission(title, yearText, currentYear).Success?
    ensures YearValid(Integer(CheckSubmission(title, yearText, currentYear).value), currentYear)
  {
  }

  /** A year typed in decimal within the range is accepted as that number. */
  lemma DecimalYearAccepted(title: string, year: int, currentYear: int)
    requires title != "" && 1800 <= year <= currentYear + YEARS_AHEAD_ON_SCREEN
    ensures CheckSubmission(title, IntToString(year), currentYear) == Success(year)
  {
    ParseIntOfDecimal(year, true);
  }

  /** Whether a dropped file is kept: its type must start with `image/`. */
  predicate DropAccepted(file: FileRef) {
    StartsWith(file.mimeType, "image/")
  }

  /** The drop check and the server's filter differ both ways: the server refuses an
      `image/webp` the screen keeps, and accepts an `IMAGE/PNG` the screen ignores; on
      lower-case types every file the server accepts is kept by the screen. */
  lemma DropCheckAgainstServerFilter(m: string)
    ensures DropAccepted(FileRef("poster", "image/webp", 1)) && FileFilter("image/webp") != Accept
    ensures !DropAccepted(FileRef("poster", "IMAGE/PNG", 1)) && FileFilter("IMAGE/PNG") == Accept
    ensures FileFilter(m) == Accept && ToLower(m) == m ==> DropAccepted(FileRef("poster", m, 1))
  {
    assert ToLower("image/webp") == "image/webp";
    assert ToLower("IMAGE/PNG") == "image/png";
    assert "image/webp"[..6] == "image/";
    assert "IMAGE/PNG"[0] != "image/"[0];
    if FileFilter(m) == Accept && ToLower(m) == m {
      assert m in ALLOWED_MIME_TYPES;
      assert m[..6] == "image/";
    }
  }

  class CreateMovieForm {
    var posterFile: Option<FileRef>
    var loading: bool
    /** The message shown; a server message can be any JSON value. */
    var error: Json

    constructor ()
      ensures posterFile == None && !loading && error == JStr("")
    {
      posterFile := None;
      loading := false;
      error := JStr("");
    }

    /** `handleFileChange`: a chosen file becomes the poster, whatever its type. */
    method HandleFileChange(file: Option<FileRef>)
      modifies this
      ensures posterFile == (if file.Some? then file else old(posterFile))
      ensures loading == old(loading) && error == old(error)
    {
      if file.Some? {
        posterFile := file;
      }
    }

    /** `handleDrop`: a dropped file becomes the poster only when its type starts with
        `image/`. */
    method HandleDrop(file: Option<FileRef>)
      modifies this
      ensures posterFile == (if file.Some? && DropAccepted(file.value) then file else old(posterFile))
      ensures loading == old(loading) && error == old(error)
    {
      if file.Some? && StartsWith(file.value.mimeType, "image/") {
        posterFile := file;
      }
    }

    /** `handleSubmit`: the error is cleared; a submission failing the checks shows their
        message and sends nothing; otherwise the form of `create` is sent with the poster, if
        any, and the error shown is the request's (`failure`), or none. Loading ends either
        way. */
    method HandleSubmit(title: string, yearText: string, currentYear: int, failure: Option<Json>)
      returns (sent: Option<seq<FormField>>)
      modifies this
      ensures posterFile == old(posterFile)
      ensures CheckSubmission(title, yearText, currentYear).Failure? ==>
        && sent == None && loading == old(loading)
        && error == JStr(CheckSubmission(title, yearText, currentYear).error)
      ensures CheckSubmission(title, yearText, currentYear).Success? ==>
        && sent == Some(CreateFields(title, CheckSubmission(title, yearText, currentYear).value, posterFile))
        && !loading
        && error == (if failure.Some? then ErrorMessage(failure.value, CREATE_FAILED) else JStr(""))
    {
      error := JStr("");
      var checked := CheckSubmission(title, yearText, currentYear);
      if checked.Failure? {
        error := JStr(checked.error);
        return None;
      }
      loading := true;
      var form := BuildCreateForm(title, checked.value, posterFile);
      sent := Some(form);
      if failure.Some? {
        error := ErrorMessage(failure.value, CREATE_FAILED);
      }
      loading := false;
    }
  }
}
