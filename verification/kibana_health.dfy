/**
  How the plugin reduces Kibana's overall health to the legacy colour string
  (the `status` tag) and to the numeric `status_code` field.
 */
module KibanaHealth {
  import opened GoStrings
  import opened KibanaRecords

  /** The legacy colours, and the value used when nothing is known. */
  const Green := "green"
  const Yellow := "yellow"
  const Red := "red"
  const Unknown := "unknown"

  /** The status levels Kibana 8.x reports. */
  const Available := "available"
  const Degraded := "degraded"
  const Unavailable := "unavailable"
  const Critical := "critical"

  /** `mapKibana8xStatus`: translates an 8.x level, in any letter case, to a legacy colour. */
  function MapKibana8xStatus(level: string): (r: string)
    ensures r in {Green, Yellow, Red, Unknown}
  {
    var l := Lower(level);
    if l == Available then Green
    else if l == Degraded then Yellow
    else if l == Unavailable || l == Critical then Red
    else Unknown
  }

  /** `getStatusValue`: a non-empty 8.x level wins; otherwise the legacy state as
      it is; otherwise "unknown". The result is never empty. */
  function GetStatusValue(overall: OverallStatus): (r: string)
    ensures r != ""
    ensures overall.level != "" ==> r in {Green, Yellow, Red, Unknown}
  {
    if overall.level != "" then MapKibana8xStatus(overall.level)
    else if overall.state != "" then overall.state
    else Unknown
  }

  /** `mapHealthStatusToCode`: 1, 2 or 3 for green, yellow or red in any letter case, 0 otherwise. */
  function MapHealthStatusToCode(s: string): (code: int)
    ensures 0 <= code <= 3
  {
    var l := Lower(s);
    if l == Green then 1
    else if l == Yellow then 2
    else if l == Red then 3
    else 0
  }

  /** The `status_code` field the plugin emits for an overall status. */
  function StatusCode(overall: OverallStatus): (code: int)
    ensures 0 <= code <= 3
  {
    MapHealthStatusToCode(GetStatusValue(overall))
  }

  lemma WordsAreLower()
    ensures IsLowerWord(Available) && IsLowerWord(Degraded)
    ensures IsLowerWord(Unavailable) && IsLowerWord(Critical)
    ensures IsLowerWord(Green) && IsLowerWord(Yellow) && IsLowerWord(Red)
  {
  }

  /** Each 8.x level is recognised in any mixture of letter cases, and nothing else is. */
  lemma MapKibana8xStatusCases(level: string)
    ensures MapKibana8xStatus(level) == Green <==> SpelledAs(level, Available)
    ensures MapKibana8xStatus(level) == Yellow <==> SpelledAs(level, Degraded)
    ensures MapKibana8xStatus(level) == Red <==>
              SpelledAs(level, Unavailable) || SpelledAs(level, Critical)
    ensures MapKibana8xStatus(level) == Unknown <==>
              !SpelledAs(level, Available) && !SpelledAs(level, Degraded)
              && !SpelledAs(level, Unavailable) && !SpelledAs(level, Critical)
  {
    WordsAreLower();
    LowerMatches(level, Available);
    LowerMatches(level, Degraded);
    LowerMatches(level, Unavailable);
    LowerMatches(level, Critical);
  }

  /** ASCII upper-casing or lower-casing the level does not change its translation. */
  lemma MapKibana8xStatusIgnoresCase(level: string)
    ensures MapKibana8xStatus(Upper(level)) == MapKibana8xStatus(level)
    ensures MapKibana8xStatus(Lower(level)) == MapKibana8xStatus(level)
  {
    LowerForgetsCase(level);
  }

  /** The code picks out green, yellow and red in any letter case, and is 0 for everything else. */
  lemma MapHealthStatusToCodeCases(s: string)
    ensures MapHealthStatusToCode(s) == 1 <==> SpelledAs(s, Green)
    ensures MapHealthStatusToCode(s) == 2 <==> SpelledAs(s, Yellow)
    ensures MapHealthStatusToCode(s) == 3 <==> SpelledAs(s, Red)
    ensures MapHealthStatusToCode(s) == 0 <==>
              !SpelledAs(s, Green) && !SpelledAs(s, Yellow) && !SpelledAs(s, Red)
  {
    WordsAreLower();
    LowerMatches(s, Green);
    LowerMatches(s, Yellow);
    LowerMatches(s, Red);
  }

  /** The three lower-case colour names have the codes 1, 2 and 3. */
  lemma ColourCodes(code: int)
    requires 1 <= code <= 3
    ensures var colour := if code == 1 then Green else if code == 2 then Yellow else Red;
            MapHealthStatusToCode(colour) == code
  {
    var colour := if code == 1 then Green else if code == 2 then Yellow else Red;
    MapHealthStatusToCodeCases(colour);
    assert SpelledAs(colour, colour);
  }

  /** A non-empty level decides the status on its own: the legacy state is ignored. */
  lemma LevelTakesPrecedence(overall: OverallStatus, otherState: string)
    requires overall.level != ""
    ensures GetStatusValue(overall) == GetStatusValue(overall.(state := otherState))
    ensures GetStatusValue(overall) == MapKibana8xStatus(overall.level)
  {
  }

  /** Without a level, the legacy state is passed on untranslated; with neither, the status is "unknown". */
  lemma LegacyStateVerbatim(overall: OverallStatus)
    requires overall.level == ""
    ensures overall.state != "" ==> GetStatusValue(overall) == overall.state
    ensures overall.state == "" ==> GetStatusValue(overall) == Unknown
  {
  }

  /** For an 8.x level, the code is non-zero exactly when the level is one of the four
      known levels, and which code follows from which level. */
  lemma LevelStatusCode(overall: OverallStatus)
    requires overall.level != ""
    ensures StatusCode(overall) != 0 <==>
              || SpelledAs(overall.level, Available) || SpelledAs(overall.level, Degraded)
              || SpelledAs(overall.level, Unavailable) || SpelledAs(overall.level, Critical)
    ensures StatusCode(overall) == 1 <==> SpelledAs(overall.level, Available)
    ensures StatusCode(overall) == 2 <==> SpelledAs(overall.level, Degraded)
    ensures StatusCode(overall) == 3 <==>
              SpelledAs(overall.level, Unavailable) || SpelledAs(overall.level, Critical)
  {
    var colour := MapKibana8xStatus(overall.level);
    MapKibana8xStatusCases(overall.level);
    if colour == Unknown {
      MapHealthStatusToCodeCases(Unknown);
      assert !SpelledAs(Unknown, Green);
    } else {
      ColourCodes(if colour == Green then 1 else if colour == Yellow then 2 else 3);
    }
  }

  /** For a legacy state, the code reads the colour case-insensitively, since the
      state reaches `mapHealthStatusToCode` untranslated. */
  lemma LegacyStatusCode(overall: OverallStatus)
    requires overall.level == "" && overall.state != ""
    ensures StatusCode(overall) == 1 <==> SpelledAs(overall.state, Green)
    ensures StatusCode(overall) == 2 <==> SpelledAs(overall.state, Yellow)
    ensures StatusCode(overall) == 3 <==> SpelledAs(overall.state, Red)
  {
    MapHealthStatusToCodeCases(overall.state);
  }

  /** A legacy state is not translated: "available" as a state yields code 0, as a level code 1. */
  lemma LegacyStateNotTranslated()
    ensures StatusCode(OverallStatus(Available, "")) == 0
    ensures StatusCode(OverallStatus("", Available)) == 1
  {
    MapHealthStatusToCodeCases(Available);
    assert Available[0] == 'a';
    LevelStatusCode(OverallStatus("", Available));
    assert SpelledAs(Available, Available);
  }
}
