/**
 * The Zabbix item wrapper: runs a Nagios plugin and turns its return code and
 * standard output into a `{"status": ..., "status_text": ...}` object. The
 * child process is outside the model; its return code and captured output are
 * the inputs.
 */
module ZabbixItemWrapper {
  import opened Wrappers
  import opened Text
  import opened Nagios

  /** The object the wrapper prints as JSON. */
  datatype StatusObject = StatusObject(status: int, statusText: string)

  /** Looking up an unnamed return code in the name table raises `KeyError(code)`. */
  datatype WrapError = KeyError(key: int)

  /**
   * The status object for a finished command. `status` is the return code.
   * `status_text` is the output without trailing whitespace, prefixed by the
   * code's name and a space unless `noTextStatus` is set; in that prefixed
   * form a return code missing from the name table is a lookup failure.
   */
  function MakeStatusObject(returnCode: int, stdout: string, noTextStatus: bool): (r: Result<StatusObject, WrapError>)
    ensures r.Err? <==> !noTextStatus && returnCode !in StatusNames
    ensures r.Err? ==> r.error == KeyError(returnCode)
    ensures r.Ok? ==> r.value.status == returnCode
    ensures r.Ok? && noTextStatus ==> r.value.statusText == RStrip(stdout)
    ensures r.Ok? && !noTextStatus ==> r.value.statusText == StatusNames[returnCode] + " " + RStrip(stdout)
  {
    if noTextStatus then Ok(StatusObject(returnCode, RStrip(stdout)))
    else if returnCode in StatusNames then Ok(StatusObject(returnCode, StatusNames[returnCode] + " " + RStrip(stdout)))
    else Err(KeyError(returnCode))
  }

  /** The name table holds exactly the four Nagios codes, and no two share a name. */
  lemma StatusNamesTable()
    ensures StatusNames.Keys == {StatusUnknown, StatusOk, StatusWarning, StatusCritical}
    ensures StatusNames[StatusUnknown] == "UNKNOWN" && StatusNames[StatusOk] == "OK"
    ensures StatusNames[StatusWarning] == "WARNING" && StatusNames[StatusCritical] == "CRITICAL"
    ensures forall a, b :: a in StatusNames && b in StatusNames && StatusNames[a] == StatusNames[b] ==> a == b
  {
  }

  /** What a reader of `status_text` can recover: the code named by its first word. */
  function StatusOfText(text: string): Option<int> {
    var word := TakeWord(text);
    if word == "UNKNOWN" then Some(StatusUnknown)
    else if word == "OK" then Some(StatusOk)
    else if word == "WARNING" then Some(StatusWarning)
    else if word == "CRITICAL" then Some(StatusCritical)
    else None
  }

  /** In text mode the status text names the return code: reading its first
      word back gives `status`, whatever the command printed. */
  lemma StatusTextNamesStatus(returnCode: int, stdout: string)
    requires MakeStatusObject(returnCode, stdout, false).Ok?
    ensures StatusOfText(MakeStatusObject(returnCode, stdout, false).value.statusText) == Some(returnCode)
  {
    var name := StatusNames[returnCode];
    assert NoSpace(name);
    TakeWordBeforeSpace(name, " " + RStrip(stdout));
    ConcatAssoc3(name, " ", RStrip(stdout));
  }

  /** In either mode the command's output, stripped of trailing whitespace, is
      the end of the status text and is all that follows the name prefix. */
  lemma StatusTextKeepsOutput(returnCode: int, stdout: string, noTextStatus: bool)
    requires MakeStatusObject(returnCode, stdout, noTextStatus).Ok?
    ensures var text := MakeStatusObject(returnCode, stdout, noTextStatus).value.statusText;
      var prefix := if noTextStatus then "" else StatusNames[returnCode] + " ";
      |prefix| <= |text| && text[..|prefix|] == prefix && text[|prefix|..] == RStrip(stdout)
  {
  }

  /** In no-text mode the status text never ends in whitespace, and wrapping an
      already wrapped text changes nothing. */
  lemma NoTextStatusIsTrimmed(returnCode: int, stdout: string)
    ensures var text := MakeStatusObject(returnCode, stdout, true).value.statusText;
      (text == [] || !IsSpace(text[|text| - 1]))
      && MakeStatusObject(returnCode, text, true).value.statusText == text
  {
    RStripIdempotent(stdout);
  }
}
