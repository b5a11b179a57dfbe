/** The web UI's settings page: the CLUE configuration fetched from
    `/api/config/clue`, edited field by field and saved back with `PUT`, and
    the kubeconfig upload to `/api/cluster/config`.  The configuration is
    kept as a map from field name to JSON value; reading the chosen file and
    the requests are parameters. */
module SettingsPage {
  import opened Wrappers
  import opened Json
  import Text

  type Config = map<string, Value>

  /** The notification shown after a save. */
  datatype Snack = Closed | Shown(message: string, success: bool)

  /** The page's state: the chosen kubeconfig file's text, the "patch local
      cluster" box, the upload status line, the last saved configuration,
      the one being edited, whether a save is under way, and the
      notification. */
  datatype Settings = Settings(file: Option<string>, patchLocal: bool, status: Option<string>,
                               saved: Option<Config>, config: Option<Config>, saving: bool,
                               snack: Snack)

  const Initial: Settings := Settings(None, true, None, None, None, false, Closed)

  /** The fields edited as numbers: those whose name contains "timeout",
      "port" or "utilization". */
  predicate Numeric(field: string) {
    Text.Contains(field, "timeout") || Text.Contains(field, "port") || Text.Contains(field, "utilization")
  }

  /** The three numeric fields of the configuration are edited as numbers. */
  lemma NumericFields()
    ensures Numeric("experiment_timeout") && Numeric("local_port") && Numeric("target_utilization")
  {
    assert Text.OccursAt("experiment_timeout", "timeout", 11);
    assert Text.OccursAt("local_port", "port", 6);
    assert Text.OccursAt("target_utilization", "utilization", 7);
  }

  predicate IsDigit(c: char) {
    '0' <= c <= '9'
  }

  /** The value of a string of decimal digits. */
  function DigitsValue(s: string): (n: nat)
    requires forall k :: 0 <= k < |s| ==> IsDigit(s[k])
    decreases |s|
  {
    if s == [] then 0
    else
      assert IsDigit(s[|s| - 1]);
      10 * DigitsValue(s[..|s| - 1]) + (s[|s| - 1] as int - '0' as int)
  }

  /** `Number(text)` as a number input can produce it: "" is 0, an optional
      minus and decimal digits are that integer; anything else is `NaN`,
      which is held as `null`, the way `JSON.stringify` writes it. */
  function NumberOf(text: string): (v: Value)
    ensures v.Int? || v == Null
    ensures text == [] ==> v == Int(0)
  {
    if text == [] then Int(0)
    else if forall k :: 0 <= k < |text| ==> IsDigit(text[k]) then Int(DigitsValue(text))
    else if text[0] == '-' && |text| > 1 && forall k :: 1 <= k < |text| ==> IsDigit(text[k]) then
      assert forall k :: 0 <= k < |text[1..]| ==> text[1..][k] == text[k + 1];
      Int(-(DigitsValue(text[1..]) as int))
    else Null
  }

  lemma DigitCharValue(d: nat)
    requires d < 10
    ensures Text.DigitChar(d) as int - '0' as int == d
  {
    var digits := "0123456789";
    assert digits[0] == '0' && digits[1] == '1' && digits[2] == '2' && digits[3] == '3' && digits[4] == '4';
    assert digits[5] == '5' && digits[6] == '6' && digits[7] == '7' && digits[8] == '8' && digits[9] == '9';
  }

  /** Reading back the digits of a natural number gives the number. */
  lemma {:induction false} DigitsOfNat(n: nat)
    ensures DigitsValue(Text.NatToString(n)) == n
    decreases n
  {
    var s := Text.NatToString(n);
    if n < 10 {
      DigitCharValue(n);
      assert s[..|s| - 1] == [];
    } else {
      DigitsOfNat(n / 10);
      DigitCharValue(n % 10);
      assert s[..|s| - 1] == Text.NatToString(n / 10);
    }
  }

  /** A number typed as its decimal text is stored as that number. */
  lemma NumberOfDecimal(i: int)
    ensures NumberOf(Text.IntToString(i)) == Int(i)
  {
    var s := Text.IntToString(i);
    DigitsOfNat(if i >= 0 then i else -i);
    if i < 0 {
      assert s[1..] == Text.NatToString(-i);
      assert s[0] == '-';
      assert !IsDigit(s[0]);
    }
  }

  /** The configuration arrived: both the saved and the edited copy take it.
      A failed request changes nothing. */
  function Fetched(s: Settings, reply: Option<Config>): (r: Settings)
    ensures reply.None? ==> r == s
    ensures reply.Some? ==> r == s.(saved := reply, config := reply)
  {
    if reply.Some? then s.(saved := reply, config := reply) else s
  }

  /** `handleChange`: without a configuration nothing happens; otherwise the
      edited field takes the number or the text typed, and every other field
      keeps its value. */
  function Changed(s: Settings, field: string, text: string): (r: Settings)
    ensures s.config.None? ==> r == s
    ensures s.config.Some? ==>
              r == s.(config := r.config) && r.config.Some? &&
              r.config.value.Keys == s.config.value.Keys + {field} &&
              r.config.value[field] == (if Numeric(field) then NumberOf(text) else Str(text)) &&
              (forall f :: f in s.config.value && f != field ==> r.config.value[f] == s.config.value[f])
  {
    if s.config.None? then s
    else s.(config := Some(s.config.value[field := if Numeric(field) then NumberOf(text) else Str(text)]))
  }

  /** Typing the saved value of a text field back in restores it. */
  lemma RetypingRestores(s: Settings, field: string, text: string)
    requires s.config.Some? && field in s.config.value && s.config.value[field] == Str(text)
    requires !Numeric(field)
    ensures Changed(s, field, text) == s
  {
    assert s.config.value[field := Str(text)] == s.config.value;
  }

  /** The body of the kubeconfig upload. */
  datatype UploadBody = UploadBody(kubeconfig: string, patchLocalCluster: bool)

  /** `upload`: nothing without a file; `btoa` throws on a character above
      U+00FF, and then nothing is sent either.  Otherwise the file's text
      (base64-encoded) goes out with the "patch" box. */
  function Upload(s: Settings): (r: Option<UploadBody>)
    ensures s.file.None? ==> r.None?
    ensures r.Some? <==> s.file.Some? && forall k :: 0 <= k < |s.file.value| ==> s.file.value[k] as int <= 0xFF
    ensures r.Some? ==> r.value == UploadBody(s.file.value, s.patchLocal)
  {
    if s.file.None? then None
    else if forall k :: 0 <= k < |s.file.value| ==> s.file.value[k] as int <= 0xFF then
      Some(UploadBody(s.file.value, s.patchLocal))
    else None
  }

  /** The upload answered: the status line tells whether it was ok. */
  function Uploaded(s: Settings, ok: bool): (r: Settings)
    ensures r == s.(status := Some(if ok then "Uploaded kubeconfig" else "Upload failed"))
  {
    s.(status := Some(if ok then "Uploaded kubeconfig" else "Upload failed"))
  }

  /** `saveConfig` starting: only with a configuration; the edited
      configuration is what is sent. */
  function SaveStarted(s: Settings): (r: Option<(Settings, Config)>)
    ensures r.Some? <==> s.config.Some?
    ensures r.Some? ==> r.value == (s.(saving := true), s.config.value)
  {
    if s.config.None? then None else Some((s.(saving := true), s.config.value))
  }

  /** How the save request ended: the request or the reading of the reply
      failed, the server refused, or it answered with the stored
      configuration. */
  datatype SaveReply = Rejected | NotOk | Ok(config: Config)

  /** `saveConfig` once its request settled.  On an ok answer both copies
      take the reply; on a refusal they stay.  Either way the button is
      enabled again, but a rejected promise skips the rest of the handler
      and leaves it disabled. */
  function Saved(s: Settings, reply: SaveReply): (r: Settings)
    ensures reply.Ok? ==> r == s.(saved := Some(reply.config), config := Some(reply.config), saving := false,
                                  snack := Shown("Configuration saved", true))
    ensures reply.NotOk? ==> r == s.(saving := false, snack := Shown("Failed to save configuration", false))
    ensures reply.Rejected? ==> r == s
  {
    match reply
    case Rejected => s
    case NotOk => s.(saving := false, snack := Shown("Failed to save configuration", false))
    case Ok(c) => s.(saved := Some(c), config := Some(c), saving := false, snack := Shown("Configuration saved", true))
  }

  /** After an ok save the edited copy is the saved one; a settled save, ok
      or not, enables the button again, and a rejected one does not. */
  lemma SaveOutcome(s: Settings, reply: SaveReply)
    requires SaveStarted(s).Some?
    ensures var r := Saved(SaveStarted(s).value.0, reply);
            (reply.Ok? ==> r.config == r.saved == Some(reply.config)) &&
            (!reply.Rejected? <==> !r.saving)
  {
  }
}
