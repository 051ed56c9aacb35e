/** `PdfRetriever` of utils/Retriever.py: the category and session-style
    tables, the results-page and PDF addresses, the local download names,
    and which files are fetched. The network and the disk are a `Web`
    value: what opening an address answers, whether a file exists, and
    what a download returns. */
module Retriever {
  import opened Wrappers
  import opened Numbers
  import Parser

  /** What `urllib.request.urlopen(url)` does: answer with a status code,
      raise `HTTPError`, or raise something else (no connection). */
  datatype Response = Status(code: int) | HttpError | Unreachable

  /** The outside world: the answer to each address, `os.path.isfile`, and
      `wget.download(url, out)`, which returns the name it saved under. */
  datatype Web = Web(fetch: string -> Response, isFile: string -> bool, download: (string, string) -> string)

  /** `wget.download` saves under the name it is given. */
  ghost predicate SavesUnderName(web: Web) {
    forall url, out :: web.download(url, out) == out
  }

  /** `categories[category]`. */
  function Category(category: string): Option<string> {
    match category
    case "MotoGP Race" => Some("MotoGP")
    case "MotoGP Sprint" => Some("MotoGP")
    case "Moto2" => Some("Moto2")
    case "Moto3" => Some("Moto3")
    case _ => None
  }

  /** `session_style[style]`. */
  function SessionStyle(style: string): Option<seq<string>> {
    match style
    case "Old style" => Some(["FP1", "FP2", "FP3", "FP4", "WUP"])
    case "New style" => Some(["P1", "P2", "FP", "WUP"])
    case "Latest style" => Some(["FP1", "PR", "FP2", "WUP"])
    case _ => None
  }

  /** No session of any style has an underscore in its name, so a download
      name ends in `_<session>.pdf` with nothing ambiguous after the last
      underscore. */
  lemma SessionStyleNames(style: string)
    requires SessionStyle(style).Some?
    ensures forall k :: 0 <= k < |SessionStyle(style).value| ==>
      var sess := SessionStyle(style).value[k]; |sess| >= 2 && '_' !in sess
  {
  }

  /** The three styles are the only keys: any other raises `KeyError`
      where the table is read. */
  lemma SessionStyleKeys(style: string)
    ensures SessionStyle(style).Some? <==> style == "Old style" || style == "New style" || style == "Latest style"
  {
  }

  /** `__check_url_validity`: an answer of 200 is valid, any other code and
      an `HTTPError` are not, and any other failure propagates. */
  function CheckUrlValidity(url: string, fetch: string -> Response): (r: Result<bool>)
    ensures r == Ok(true) <==> fetch(url) == Status(200)
    ensures r.Err? <==> fetch(url).Unreachable?
    ensures r.Err? ==> r.error == UrlError
    ensures fetch(url).HttpError? ==> r == Ok(false)
  {
    match fetch(url)
    case Unreachable => Err(UrlError)
    case HttpError => Ok(404 == 200)
    case Status(code) => Ok(code == 200)
  }

  /** The results page of one session. */
  function ClassificationUrl(year: int, race: string, raceClass: string, sess: string): string {
    "https://www.motogp.com/en/gp-results/" + IntToString(year) + "/" + race + "/" + raceClass + "/" + sess + "/Classification"
  }

  /** The validity of the results page of one MotoGP practice session. */
  function PracticeValidity(year: int, race: string, fetch: string -> Response): string -> Result<bool> {
    sess => CheckUrlValidity(ClassificationUrl(year, race, "MotoGP", sess), fetch)
  }

  /** `check_motogp_practice_sessions_exist` as written: every session of
      the style is checked in order, each check overwriting the last, and
      the `else` of the `for` always breaks out of the `while`; so the
      answer is the validity of the last session only. */
  function SessionsExist(year: int, race: string, style: string, fetch: string -> Response): Result<bool> {
    match SessionStyle(style)
    case None => Err(KeyError)
    case Some(types) => LastSessionExists(year, race, types, fetch)
  }

  /** The checks of all the sessions, keeping the last. */
  function LastSessionExists(year: int, race: string, types: seq<string>, fetch: string -> Response): Result<bool> {
    match MapAll(PracticeValidity(year, race, fetch), types)
    case Err(e) => Err(e)
    case Ok(valid) => Ok(valid != [] && valid[|valid| - 1])
  }

  /** When every page answers, the result is whether the last session's
      page answers 200, whatever the earlier ones answered. */
  lemma SessionsExistLast(year: int, race: string, types: seq<string>, fetch: string -> Response)
    requires types != []
    requires forall k :: 0 <= k < |types| ==> !fetch(ClassificationUrl(year, race, "MotoGP", types[k])).Unreachable?
    ensures LastSessionExists(year, race, types, fetch) ==
            Ok(fetch(ClassificationUrl(year, race, "MotoGP", types[|types| - 1])) == Status(200))
  {
    var f := PracticeValidity(year, race, fetch);
    MapAllSpec(f, types);
    var valid := MapAll(f, types).value;
    assert valid[|valid| - 1] == f(types[|types| - 1]).value;
  }

  /** A page that does not answer at all raises out of the check. */
  lemma SessionsExistUnreachable(year: int, race: string, types: seq<string>, fetch: string -> Response, k: int)
    requires 0 <= k < |types| && fetch(ClassificationUrl(year, race, "MotoGP", types[k])).Unreachable?
    ensures LastSessionExists(year, race, types, fetch) == Err(UrlError)
  {
    var f := PracticeValidity(year, race, fetch);
    MapAllSpec(f, types);
    assert f(types[k]).Err?;
  }

  /** Only the last session counts: with the new style, a first practice
      whose page exists and a warm-up whose page does not, the sessions are
      reported missing. (The warm-up is the only session of
      that style with a three-letter name, so its address is the only one
      of its length.) */
  lemma SessionsExistMissesEarlier(year: int, race: string)
    ensures var fetch := (url: string) =>
              if |url| == |ClassificationUrl(year, race, "MotoGP", "WUP")| then HttpError else Status(200);
            && fetch(ClassificationUrl(year, race, "MotoGP", "P1")) == Status(200)
            && SessionsExist(year, race, "New style", fetch) == Ok(false)
  {
    var fetch := (url: string) =>
      if |url| == |ClassificationUrl(year, race, "MotoGP", "WUP")| then HttpError else Status(200);
    var types := ["P1", "P2", "FP", "WUP"];
    assert SessionStyle("New style") == Some(types);
    SessionsExistLast(year, race, types, fetch);
  }

  /** The race type: `"SPR"` for the sprint and `"RAC"` for anything else. */
  function RaceType(category: string): (t: string)
    ensures t == "SPR" <==> category == "MotoGP Sprint"
    ensures t != "SPR" ==> t == "RAC"
  {
    if category == "MotoGP Sprint" then "SPR" else "RAC"
  }

  /** The document: `"Analysis"` for an analysis, `"Classification"` for
      anything else. */
  function DocumentName(sessionType: string): (name: string)
    ensures name == "Analysis" <==> sessionType == "analysis"
    ensures name != "Analysis" ==> name == "Classification"
  {
    if sessionType == "analysis" then "Analysis" else "Classification"
  }

  /** `check_race_exist`: an unknown category raises `KeyError`; otherwise
      the validity of the race's (or sprint's) results page. */
  function CheckRaceExist(year: int, race: string, category: string, fetch: string -> Response): Result<bool> {
    var sess := RaceType(category);
    match Category(category)
    case None => Err(KeyError)
    case Some(raceClass) => CheckUrlValidity(ClassificationUrl(year, race, raceClass, sess), fetch)
  }

  /** The race exists exactly when its category is known and its results
      page answers 200; for the sprint that is the MotoGP `SPR` page. */
  lemma CheckRaceExistSpec(year: int, race: string, category: string, fetch: string -> Response)
    ensures CheckRaceExist(year, race, category, fetch) == Err(KeyError) <==> Category(category).None?
    ensures CheckRaceExist(year, race, category, fetch) == Ok(true) <==>
              Category(category).Some? &&
              fetch(ClassificationUrl(year, race, Category(category).value, RaceType(category))) == Status(200)
    ensures category == "MotoGP Sprint" ==>
              CheckRaceExist(year, race, category, fetch) == CheckUrlValidity(ClassificationUrl(year, race, "MotoGP", "SPR"), fetch)
  {
  }

  /** The PDF of one practice session. */
  function PracticePdfUrl(year: int, race: string, sess: string): string {
    "https://resources.motogp.com/files/results/" + IntToString(year) + "/" + race + "/MotoGP/" + sess + "/Analysis.pdf"
  }

  /** The local name of one practice session's PDF. */
  function PracticeDownloadName(year: int, race: string, sess: string): string {
    "../score-tracking/static/" + (IntToString(year) + "_" + race + "_" + sess + ".pdf")
  }

  /** An existing file is reused; otherwise the PDF is downloaded. */
  function Fetched(web: Web, url: string, downloadName: string): (r: string)
    ensures SavesUnderName(web) ==> r == downloadName
  {
    if web.isFile(downloadName) then downloadName else web.download(url, downloadName)
  }

  /** The file of one practice session: none when its PDF is not there. */
  function PracticeFile(year: int, race: string, sess: string, web: Web): Result<seq<string>> {
    var url := PracticePdfUrl(year, race, sess);
    match CheckUrlValidity(url, web.fetch)
    case Err(e) => Err(e)
    case Ok(valid) => Ok(if valid then [Fetched(web, url, PracticeDownloadName(year, race, sess))] else [])
  }

  /** The file loop of `retrieve_practice_files`. */
  function PracticeFiles(year: int, race: string, sessions: seq<string>, web: Web): Result<seq<string>> {
    if sessions == [] then Ok([])
    else
      match PracticeFile(year, race, sessions[0], web)
      case Err(e) => Err(e)
      case Ok(f) => Prepend(f, PracticeFiles(year, race, sessions[1..], web))
  }

  /** The sessions whose PDF answers 200, in order. */
  function ValidSessions(year: int, race: string, sessions: seq<string>, fetch: string -> Response): (r: seq<string>)
    ensures forall s :: s in r ==> s in sessions && fetch(PracticePdfUrl(year, race, s)) == Status(200)
  {
    if sessions == [] then []
    else
      (if fetch(PracticePdfUrl(year, race, sessions[0])) == Status(200) then [sessions[0]] else []) +
      ValidSessions(year, race, sessions[1..], fetch)
  }

  /** The download names of some sessions, in order. */
  function DownloadNames(year: int, race: string, sessions: seq<string>): (r: seq<string>)
    ensures |r| == |sessions|
    ensures forall i :: 0 <= i < |r| ==> r[i] == PracticeDownloadName(year, race, sessions[i])
  {
    if sessions == [] then []
    else [PracticeDownloadName(year, race, sessions[0])] + DownloadNames(year, race, sessions[1..])
  }

  /** With downloads saved under their given name, the files are the
      download names of exactly the sessions whose PDF answers 200, in the
      order of the style. */
  lemma {:induction false} PracticeFilesNames(year: int, race: string, sessions: seq<string>, web: Web)
    requires SavesUnderName(web)
    requires PracticeFiles(year, race, sessions, web).Ok?
    ensures PracticeFiles(year, race, sessions, web).value ==
            DownloadNames(year, race, ValidSessions(year, race, sessions, web.fetch))
  {
    if sessions != [] {
      PracticeFilesNames(year, race, sessions[1..], web);
      var head := if web.fetch(PracticePdfUrl(year, race, sessions[0])) == Status(200) then [sessions[0]] else [];
      var tail := ValidSessions(year, race, sessions[1..], web.fetch);
      DownloadNamesAppend(year, race, head, tail);
    }
  }

  lemma DownloadNamesAppend(year: int, race: string, a: seq<string>, b: seq<string>)
    ensures DownloadNames(year, race, a + b) == DownloadNames(year, race, a) + DownloadNames(year, race, b)
  {
    assert |DownloadNames(year, race, a + b)| == |a + b|;
  }

  /** A PDF that does not answer at all raises, and only then. */
  lemma {:induction false} PracticeFilesError(year: int, race: string, sessions: seq<string>, web: Web)
    ensures PracticeFiles(year, race, sessions, web).Err? <==>
              exists k :: 0 <= k < |sessions| && web.fetch(PracticePdfUrl(year, race, sessions[k])).Unreachable?
  {
    if sessions != [] {
      PracticeFilesError(year, race, sessions[1..], web);
      if exists k :: 0 <= k < |sessions| && web.fetch(PracticePdfUrl(year, race, sessions[k])).Unreachable? {
        var k :| 0 <= k < |sessions| && web.fetch(PracticePdfUrl(year, race, sessions[k])).Unreachable?;
        if k > 0 {
          assert sessions[1..][k - 1] == sessions[k];
        }
      }
      if exists k :: 0 <= k < |sessions| - 1 && web.fetch(PracticePdfUrl(year, race, sessions[1..][k])).Unreachable? {
        var k :| 0 <= k < |sessions| - 1 && web.fetch(PracticePdfUrl(year, race, sessions[1..][k])).Unreachable?;
        assert sessions[k + 1] == sessions[1..][k];
      }
    }
  }

  /** The download name ends in `_<session>.pdf`, so the session tag read
      back when the PDF is parsed is the session. */
  lemma PracticeTagRoundTrip(year: int, race: string, sess: string)
    requires '_' !in sess
    ensures Parser.SessionTag(PracticeDownloadName(year, race, sess)) == sess
  {
    var prefix := "../score-tracking/static/" + IntToString(year) + "_" + race;
    assert PracticeDownloadName(year, race, sess) == prefix + "_" + sess + ".pdf";
    Parser.SessionTagOf(prefix, sess);
  }

  /** The local name of a race PDF. */
  function RaceDownloadName(year: int, race: string, raceClass: string, raceType: string, name: string): string {
    "../score-tracking/static/" + (IntToString(year) + "_" + race + "_" + raceClass + "_" + raceType + "_" + name + ".pdf")
  }

  /** The race PDF. */
  function RacePdfUrl(year: int, race: string, raceClass: string, raceType: string, name: string): string {
    "https://resources.motogp.com/files/results/" + IntToString(year) + "/" + race + "/" + raceClass + "/" + raceType + "/" + name + ".pdf"
  }

  /** The race tag read back from a race download name is the document
      name: `"Analysis"` or `"Classification"`. */
  lemma RaceTagRoundTrip(year: int, race: string, raceClass: string, raceType: string, sessionType: string)
    ensures var name := DocumentName(sessionType);
            Parser.SessionTag(RaceDownloadName(year, race, raceClass, raceType, name)) == name
  {
    var name := DocumentName(sessionType);
    var prefix := "../score-tracking/static/" + IntToString(year) + "_" + race + "_" + raceClass + "_" + raceType;
    assert RaceDownloadName(year, race, raceClass, raceType, name) == prefix + "_" + name + ".pdf";
    DocumentNameNoUnderscore(sessionType);
    Parser.SessionTagOf(prefix, name);
  }

  lemma DocumentNameNoUnderscore(sessionType: string)
    ensures '_' !in DocumentName(sessionType)
  {
  }

  /** The result of `retrieve_race_files` once the category is known: the
      local file when the PDF answers 200, else `None`. */
  function RaceFile(year: int, race: string, raceClass: string, raceType: string, name: string, web: Web): Result<Option<string>> {
    var url := RacePdfUrl(year, race, raceClass, raceType, name);
    match CheckUrlValidity(url, web.fetch)
    case Err(e) => Err(e)
    case Ok(valid) =>
      Ok(if valid then Some(Fetched(web, url, RaceDownloadName(year, race, raceClass, raceType, name))) else None)
  }

  /** With downloads saved under their given name, a race file is there
      exactly when its PDF answers 200, and it is the race download name. */
  lemma RaceFileSpec(year: int, race: string, raceClass: string, raceType: string, name: string, web: Web)
    requires SavesUnderName(web)
    ensures var url := RacePdfUrl(year, race, raceClass, raceType, name);
            && (RaceFile(year, race, raceClass, raceType, name, web).Err? <==> web.fetch(url).Unreachable?)
            && (RaceFile(year, race, raceClass, raceType, name, web) == Ok(Some(RaceDownloadName(year, race, raceClass, raceType, name)))
                <==> web.fetch(url) == Status(200))
  {
  }

  /** The retriever: the year and race of the last retrieval, and the
      session fields the constructor clears. The two tables are the
      constant functions above. */
  class PdfRetriever {
    var year: Option<int>
    var race: Option<string>
    var session: Option<string>
    var sessions: Option<seq<string>>

    constructor()
      ensures year == None && race == None && session == None && sessions == None
    {
      year := None;
      race := None;
      session := None;
      sessions := None;
    }

    /** `check_motogp_practice_sessions_exist`. The `while` around the
        `for` runs its body once, since the `for`'s `else` always breaks,
        so the model keeps the `for` alone. */
    method CheckMotogpPracticeSessionsExist(year: int, race: string, style: string, fetch: string -> Response)
        returns (r: Result<bool>)
      ensures r == SessionsExist(year, race, style, fetch)
    {
      var urlExists := false;
      var styles := SessionStyle(style);
      if styles.None? {
        return Err(KeyError);
      }
      var sessionTypes := styles.value;
      ghost var f := PracticeValidity(year, race, fetch);
      ghost var valid: seq<bool> := [];
      assert sessionTypes[0..] == sessionTypes;
      PrependAssoc([], [], MapAll(f, sessionTypes));
      for k := 0 to |sessionTypes|
        invariant |valid| == k
        invariant MapAll(f, sessionTypes) == Prepend(valid, MapAll(f, sessionTypes[k..]))
        invariant urlExists == (valid != [] && valid[|valid| - 1])
      {
        var exists_ := CheckUrlValidity(ClassificationUrl(year, race, "MotoGP", sessionTypes[k]), fetch);
        assert f(sessionTypes[k]) == exists_;
        if exists_.Err? {
          assert sessionTypes[k..][0] == sessionTypes[k];
          return Err(exists_.error);
        }
        MapAllStep(f, sessionTypes, k);
        PrependAssoc(valid, [exists_.value], MapAll(f, sessionTypes[k + 1..]));
        valid := valid + [exists_.value];
        urlExists := exists_.value;
      }
      assert MapAll(f, sessionTypes[|sessionTypes|..]) == Ok([]);
      assert valid + [] == valid;
      return Ok(urlExists);
    }

    /** `retrieve_practice_files`: an unknown style raises `KeyError`
        before anything is set (the `except ValueError` around the lookup
        does not catch it); otherwise the year and race are recorded and
        the file of every session whose PDF is there is collected, in the
        order of the style. */
    method RetrievePracticeFiles(year: int, race: string, style: string, web: Web)
        returns (r: Result<seq<string>>)
      modifies this
      ensures SessionStyle(style).None? ==> r == Err(KeyError) && unchanged(this)
      ensures SessionStyle(style).Some? ==>
                && this.year == Some(year) && this.race == Some(race)
                && this.session == old(this.session) && this.sessions == old(this.sessions)
                && r == PracticeFiles(year, race, SessionStyle(style).value, web)
    {
      var styles := SessionStyle(style);
      if styles.None? {
        return Err(KeyError);
      }
      var sessionList := styles.value;
      this.year := Some(year);
      this.race := Some(race);
      var fileNames: seq<string> := [];
      var i := 0;
      assert sessionList[i..] == sessionList;
      PrependAssoc([], [], PracticeFiles(year, race, sessionList, web));
      while i < |sessionList|
        invariant 0 <= i <= |sessionList|
        invariant this.year == Some(year) && this.race == Some(race)
        invariant this.session == old(this.session) && this.sessions == old(this.sessions)
        invariant PracticeFiles(year, race, sessionList, web) ==
                  Prepend(fileNames, PracticeFiles(year, race, sessionList[i..], web))
      {
        var sess := sessionList[i];
        assert sessionList[i..][0] == sess && sessionList[i..][1..] == sessionList[i + 1..];
        var url := PracticePdfUrl(this.year.value, this.race.value, sess);
        var validUrl := CheckUrlValidity(url, web.fetch);
        if validUrl.Err? {
          return Err(validUrl.error);
        }
        var found: seq<string> := [];
        if validUrl.value {
          var downloadName := PracticeDownloadName(year, race, sess);
          var fileName;
          if web.isFile(downloadName) {
            fileName := downloadName;
          } else {
            fileName := web.download(url, downloadName);
          }
          found := [fileName];
        }
        PrependAssoc(fileNames, found, PracticeFiles(year, race, sessionList[i + 1..], web));
        fileNames := fileNames + found;
        i := i + 1;
      }
      assert fileNames + [] == fileNames;
      return Ok(fileNames);
    }

    /** `retrieve_race_files`: an unknown category raises `KeyError`
        before anything is set; otherwise the year and race are recorded
        and the race file is fetched when its PDF is there. */
    method RetrieveRaceFiles(year: int, race: string, category: string, sessionType: string, web: Web)
        returns (r: Result<Option<string>>)
      modifies this
      ensures Category(category).None? ==> r == Err(KeyError) && unchanged(this)
      ensures Category(category).Some? ==>
                && this.year == Some(year) && this.race == Some(race)
                && this.session == old(this.session) && this.sessions == old(this.sessions)
                && r == RaceFile(year, race, Category(category).value, RaceType(category), DocumentName(sessionType), web)
    {
      var raceType := if category == "MotoGP Sprint" then "SPR" else "RAC";
      var raceClass := Category(category);
      if raceClass.None? {
        return Err(KeyError);
      }
      var name := if sessionType == "analysis" then "Analysis" else "Classification";
      this.year := Some(year);
      this.race := Some(race);
      var url := RacePdfUrl(this.year.value, this.race.value, raceClass.value, raceType, name);
      var validUrl := CheckUrlValidity(url, web.fetch);
      if validUrl.Err? {
        return Err(validUrl.error);
      }
      var fileName: Option<string> := None;
      if validUrl.value {
        var downloadName := RaceDownloadName(year, race, raceClass.value, raceType, name);
        if web.isFile(downloadName) {
          fileName := Some(downloadName);
        } else {
          fileName := Some(web.download(url, downloadName));
        }
      }
      return Ok(fileName);
    }
  }
}
