/** The license settings screen (`License_Settings`): how a registered
    setting is completed with defaults and labelled, how the stored license
    record is classified into the status shown under the key field, and the
    check for an active Jilt plugin. HTML, scripts and message texts are not
    modelled; each message is a tag. */
module LicenseSettings {
  import opened PhpValues
  import opened PhpStrings
  import opened Options

  /** A settings-field descriptor: a PHP associative array. */
  type Setting = map<string, Value>

  /** The defaults `register_settings` merges under every descriptor. */
  const SettingDefaults: Setting := map[
    "section" := Str("wc-addons"),
    "id" := Null,
    "desc" := Str(""),
    "name" := Str(""),
    "size" := Null,
    "options" := Str(""),
    "std" := Str(""),
    "min" := Null,
    "max" := Null,
    "step" := Null,
    "chosen" := Null,
    "multiple" := Null,
    "placeholder" := Null,
    "allow_blank" := Bool(true),
    "readonly" := Bool(false),
    "faux" := Bool(false),
    "tooltip_title" := Bool(false),
    "tooltip_desc" := Bool(false),
    "field_class" := Str("")
  ]

  /** The text removed from every field label. */
  const LabelNoise := "WooCommerce "

  const DayInSeconds := 86400

  /** A valid license expiring in less than this many seconds is "soon". */
  const ExpiresSoonWindow := 30 * DayInSeconds

  const JiltPluginFile := "jilt-for-woocommerce.php"

  /** `wp_parse_args( $setting, SettingDefaults )`: the descriptor's own
      entries win, every missing key takes its default. */
  function ParseArgs(setting: Setting): (r: Setting)
    ensures r.Keys == setting.Keys + SettingDefaults.Keys
    ensures forall k :: k in setting ==> r[k] == setting[k]
    ensures forall k :: k in SettingDefaults && k !in setting ==> r[k] == SettingDefaults[k]
  {
    SettingDefaults + setting
  }

  /** The label a field is registered under: its name with every
      "WooCommerce " removed in one left-to-right pass. */
  function FieldLabel(name: Value): (r: string)
    ensures |r| <= |ToText(name)|
    ensures !Contains(ToText(name), LabelNoise) ==> r == ToText(name)
  {
    ReplaceAll(ToText(name), LabelNoise, "")
  }

  /** The leftmost "WooCommerce " is removed: the text before it is kept and
      the removal goes on in the text after it. */
  lemma FieldLabelRemovesFirst(a: string, b: string)
    requires !Contains(a + "WooCommerce", LabelNoise)
    ensures FieldLabel(Str(a + LabelNoise + b)) == a + FieldLabel(Str(b))
  {
    assert LabelNoise[..|LabelNoise| - 1] == "WooCommerce";
    ReplaceAllAtFirst(a, b, LabelNoise, "");
    assert a + "" == a;
  }

  /** The removal is a single pass: pieces left around a removed occurrence
      can join into a new "WooCommerce " that stays in the label. */
  lemma LabelRemovalIsSinglePass()
    ensures FieldLabel(Str("WooWooCommerce Commerce ")) == LabelNoise
  {
    var t := LabelNoise + "Commerce ";
    NoiseThenTail();
    assert ("o" + t)[..12][1] != LabelNoise[1];
    KeepsUnmatchedHead('o', t, LabelNoise);
    assert ("o" + ("o" + t))[..12][2] != LabelNoise[2];
    KeepsUnmatchedHead('o', "o" + t, LabelNoise);
    assert ("W" + ("o" + ("o" + t)))[..12][3] != LabelNoise[3];
    KeepsUnmatchedHead('W', "o" + ("o" + t), LabelNoise);
    SinglePassSpelling();
  }

  /** A leading character that does not start a match is kept, and the scan
      goes on after it. */
  lemma KeepsUnmatchedHead(c: char, s: string, pat: string)
    requires pat != [] && |pat| <= |s| + 1 && ([c] + s)[..|pat|] != pat
    ensures ReplaceAll([c] + s, pat, "") == [c] + ReplaceAll(s, pat, "")
  {
    assert ([c] + s)[1..] == s;
  }

  /** Proof step for `LabelRemovalIsSinglePass`: the occurrence at the front
      is removed and the short tail is kept. */
  lemma NoiseThenTail()
    ensures ReplaceAll(LabelNoise + "Commerce ", LabelNoise, "") == "Commerce "
  {
    var tail := "Commerce ";
    assert ReplaceAll(tail, LabelNoise, "") == tail;
    var t := LabelNoise + tail;
    assert t[..12] == LabelNoise && t[12..] == tail;
  }

  /** Proof step for `LabelRemovalIsSinglePass`: the literal spellings it
      joins. */
  lemma SinglePassSpelling()
    ensures "W" + ("o" + ("o" + (LabelNoise + "Commerce "))) == "WooWooCommerce Commerce "
    ensures "W" + ("o" + ("o" + "Commerce ")) == LabelNoise
  {
  }

  /** What `add_settings_field` receives for one descriptor. */
  datatype RegisteredField = RegisteredField(id: Value, title: string, args: Setting)

  function Registration(setting: Setting): RegisteredField {
    var args := ParseArgs(setting);
    RegisteredField(args["id"], FieldLabel(args["name"]), args)
  }

  /** `register_settings`: one field per descriptor, in order. */
  method RegisterSettings(settings: seq<Setting>) returns (fields: seq<RegisteredField>)
    ensures |fields| == |settings|
    ensures forall i :: 0 <= i < |settings| ==> fields[i] == Registration(settings[i])
  {
    fields := [];
    for i := 0 to |settings|
      invariant |fields| == i
      invariant forall j :: 0 <= j < i ==> fields[j] == Registration(settings[j])
    {
      fields := fields + [Registration(settings[i])];
    }
  }

  /** The CSS class of the status block (`sv-license-<class>`). */
  datatype LicenseClass = Expired | Error | Valid | Empty

  /** The status tag added next to the class. */
  datatype StatusTag =
    | ExpiredNotice        // license-expired-notice
    | ErrorNotice          // license-error-notice
    | LifetimeNotice       // license-lifetime-notice
    | ExpiresSoonNotice    // license-expires-soon-notice
    | ExpirationDateNotice // license-expiration-date-notice

  /** The message shown, as a tag with the values it interpolates. */
  datatype Message =
    | ExpiredOn(expiredAt: Option<int>, renewKey: Value) // error 'expired'
    | Disabled                                        // error 'revoked'
    | VisitAccount                                    // error 'missing'
    | InactiveForUrl(fieldName: Value)                // error 'invalid' or 'site_inactive'
    | WrongItem(fieldName: Value)                     // error 'item_name_mismatch'
    | ActivationLimit                                 // error 'no_activations_left'
    | BundleKey                                       // error 'license_not_activable'
    | OtherError(code: Value)                         // any other error
    | NeverExpires
    | ExpiresSoon(expiresAt: int, renewKey: Value)
    | ExpiresOn(shownDate: Option<int>)
    | EnterKey(fieldName: Value)

  datatype Classification = Classification(cls: LicenseClass, status: Option<StatusTag>, message: Message)

  /** The error codes that have a message of their own. */
  const KnownErrors := {"expired", "revoked", "missing", "invalid", "site_inactive",
                        "item_name_mismatch", "no_activations_left", "license_not_activable"}

  /** The remote API reported a failure: `false === $license->success`. */
  predicate IsFailure(license: Value) {
    license.Obj? && Prop(license, "success") == Bool(false)
  }

  /** `$expiration > $now && $expiration - $now < 30 days`; an unparsable
      date (`false`) is never greater than `now`. */
  predicate ExpiresSoonAt(expiration: Option<int>, now: int) {
    expiration.Some? && expiration.value > now && expiration.value - now < ExpiresSoonWindow
  }

  /** The message for a failed record whose error is not 'expired': the
      cases of the switch after the first, in order. */
  function FailureMessage(error: Value, fieldName: Value): (m: Message)
    requires !LooselyEqualsWord(error, "expired")
    ensures error == Str("revoked") ==> m == Disabled
    ensures error == Str("missing") ==> m == VisitAccount
    ensures error == Str("invalid") || error == Str("site_inactive") ==> m == InactiveForUrl(fieldName)
    ensures error == Str("item_name_mismatch") ==> m == WrongItem(fieldName)
    ensures error == Str("no_activations_left") ==> m == ActivationLimit
    ensures error == Str("license_not_activable") ==> m == BundleKey
    ensures error.Str? && error.s in KnownErrors - {"expired"} ==> !m.OtherError?
    ensures !error.Str? || error.s !in KnownErrors ==>
              m == OtherError(if Truthy(error) then error else Str("unknown_error"))
  {
    if LooselyEqualsWord(error, "revoked") then Disabled
    else if LooselyEqualsWord(error, "missing") then VisitAccount
    else if LooselyEqualsWord(error, "invalid") || LooselyEqualsWord(error, "site_inactive") then InactiveForUrl(fieldName)
    else if LooselyEqualsWord(error, "item_name_mismatch") then WrongItem(fieldName)
    else if LooselyEqualsWord(error, "no_activations_left") then ActivationLimit
    else if LooselyEqualsWord(error, "license_not_activable") then BundleKey
    else OtherError(if Truthy(error) then error else Str("unknown_error"))
  }

  /** The status decision of `license_key_callback`, from the stored record,
      the displayed key, the parsed expiry date and the current time. */
  function Classify(license: Value, value: Value, fieldName: Value, expiration: Option<int>, now: int): (c: Classification)
    // no record, or not an object: 'empty' with no status
    ensures c.cls == Empty <==> !license.Obj?
    ensures c.status == None <==> c.cls == Empty
    ensures c.cls == Empty ==> c.message == EnterKey(fieldName)
    // a failure record: 'expired' for the expired error, 'error' for every other one
    ensures c.cls == Expired <==> IsFailure(license) && LooselyEqualsWord(Prop(license, "error"), "expired")
    ensures c.cls == Error <==> IsFailure(license) && !LooselyEqualsWord(Prop(license, "error"), "expired")
    ensures c.cls == Expired ==> c.status == Some(ExpiredNotice) && c.message == ExpiredOn(expiration, value)
    ensures c.cls == Error ==> c.status == Some(ErrorNotice) && c.message == FailureMessage(Prop(license, "error"), fieldName)
    // every other object is 'valid', whatever its license field says
    ensures c.cls == Valid <==> license.Obj? && !IsFailure(license)
    ensures c.cls == Valid ==>
              (c.status == Some(LifetimeNotice) <==> Prop(license, "expires") == Str("lifetime"))
    ensures c.cls == Valid ==>
              (c.status == Some(ExpiresSoonNotice) <==>
                 Prop(license, "expires") != Str("lifetime") && ExpiresSoonAt(expiration, now))
    ensures c.cls == Valid ==>
              (c.status == Some(ExpirationDateNotice) <==>
                 Prop(license, "expires") != Str("lifetime") && !ExpiresSoonAt(expiration, now))
    ensures c.status == Some(LifetimeNotice) ==> c.message == NeverExpires
    ensures c.status == Some(ExpiresSoonNotice) ==> c.message == ExpiresSoon(expiration.value, value)
    ensures c.status == Some(ExpirationDateNotice) ==> c.message == ExpiresOn(expiration)
  {
    if !license.Obj? then
      Classification(Empty, None, EnterKey(fieldName))
    else if IsFailure(license) then
      var error := Prop(license, "error");
      if LooselyEqualsWord(error, "expired") then
        Classification(Expired, Some(ExpiredNotice), ExpiredOn(expiration, value))
      else
        Classification(Error, Some(ErrorNotice), FailureMessage(error, fieldName))
    else if Prop(license, "expires") == Str("lifetime") then
      Classification(Valid, Some(LifetimeNotice), NeverExpires)
    else if ExpiresSoonAt(expiration, now) then
      Classification(Valid, Some(ExpiresSoonNotice), ExpiresSoon(expiration.value, value))
    else
      Classification(Valid, Some(ExpirationDateNotice), ExpiresOn(expiration))
  }

  /** A lifetime license reads "never expires" at every moment and for every
      expiry date the host parser might produce. */
  lemma LifetimeAtAnyTime(license: Value, value: Value, fieldName: Value, e1: Option<int>, now1: int, e2: Option<int>, now2: int)
    requires license.Obj? && !IsFailure(license) && Prop(license, "expires") == Str("lifetime")
    ensures Classify(license, value, fieldName, e1, now1) == Classify(license, value, fieldName, e2, now2)
    ensures Classify(license, value, fieldName, e1, now1).status == Some(LifetimeNotice)
  {
  }

  /** The value shown in the key field: the stored key when truthy, else the
      descriptor's `std`, else the empty string. */
  function DisplayValue(svOption: Value, args: Setting): (v: Value)
    ensures Truthy(svOption) ==> v == svOption
    ensures !Truthy(svOption) && "std" in args && args["std"] != Null ==> v == args["std"]
    ensures !Truthy(svOption) && ("std" !in args || args["std"] == Null) ==> v == Str("")
  {
    if Truthy(svOption) then svOption
    else if "std" in args && args["std"] != Null then args["std"]
    else Str("")
  }

  /** The input's size class: the descriptor's `size`, 'regular' when unset. */
  function InputSize(args: Setting): (v: Value)
    ensures v != Null
    ensures "size" !in args || args["size"] == Null ==> v == Str("regular")
    ensures "size" in args && args["size"] != Null ==> v == args["size"]
  {
    if "size" in args && args["size"] != Null then args["size"] else Str("regular")
  }

  /** The deactivate button is shown for an object whose license field is
      loosely 'valid', or for a raw option that is loosely 'valid'. */
  function ShowsDeactivate(license: Value): (r: bool)
    ensures license.Obj? && Prop(license, "license") == Str("valid") ==> r
    ensures license.Obj? ==> (r <==> Prop(license, "license") in {Str("valid"), Bool(true)})
    ensures !license.Obj? ==> (r <==> license in {Str("valid"), Bool(true)})
  {
    (license.Obj? && LooselyEqualsWord(Prop(license, "license"), "valid")) || LooselyEqualsWord(license, "valid")
  }

  /** The class and the button are decided independently: a record that
      classifies as valid need not show the deactivate button. */
  lemma ValidClassWithoutButton()
    ensures var r := Obj(map["license" := Str("invalid"), "success" := Bool(true)]);
            Classify(r, Str(""), Str(""), None, 0).cls == Valid && !ShowsDeactivate(r)
  {
  }

  /** The arguments the callback is registered with: a text `id` and an
      `options` array naming the option that holds the license record. */
  predicate CallbackArgs(args: Setting) {
    && "id" in args && args["id"].Str?
    && "options" in args && args["options"].Arr?
    && "is_valid_license_option" in args["options"].entries
    && args["options"].entries["is_valid_license_option"].Str?
  }

  function RecordOption(args: Setting): string
    requires CallbackArgs(args)
  {
    args["options"].entries["is_valid_license_option"].s
  }

  /** `$args['name']`, the field name some messages interpolate. */
  function FieldName(args: Setting): Value {
    if "name" in args then args["name"] else Null
  }

  /** One status block under the key field. */
  datatype StatusBlock = StatusBlock(cls: LicenseClass, status: Option<StatusTag>, message: Message)

  /** What the callback renders: the key input, the optional deactivate
      button and the status blocks. */
  datatype FieldView = FieldView(value: Value, size: Value, deactivateButton: bool, blocks: seq<StatusBlock>)

  /** `license_key_callback`: reads the key and the record, collects the
      messages and renders one block per message. `strtotime` is the host's
      date parser. Exactly one block is rendered, and it carries the
      classification of the stored record. */
  method LicenseKeyCallback(args: Setting, options: map<string, Value>, now: int,
                            strtotime: (Value, int) -> Option<int>)
    returns (view: FieldView)
    requires CallbackArgs(args)
    ensures view.value == DisplayValue(OptionOr(options, args["id"].s, Bool(false)), args)
    ensures view.size == InputSize(args)
    ensures var license := OptionOr(options, RecordOption(args), Bool(false));
            view.deactivateButton == ShowsDeactivate(license)
    ensures var license := OptionOr(options, RecordOption(args), Bool(false));
            var c := Classify(license, view.value, FieldName(args), strtotime(Prop(license, "expires"), now), now);
            view.blocks == [StatusBlock(c.cls, c.status, c.message)]
  {
    var svOption := OptionOr(options, args["id"].s, Bool(false));
    var messages: seq<Message> := [];
    var license := OptionOr(options, RecordOption(args), Bool(false));
    var value := DisplayValue(svOption, args);
    var cls: LicenseClass;
    var status: Option<StatusTag>;

    if license.Obj? {
      var expiration := strtotime(Prop(license, "expires"), now);
      if Prop(license, "success") == Bool(false) {
        var error := Prop(license, "error");
        if LooselyEqualsWord(error, "expired") {
          cls := Expired;
          messages := messages + [ExpiredOn(expiration, value)];
          status := Some(ExpiredNotice);
        } else {
          cls := Error;
          messages := messages + [FailureMessage(error, FieldName(args))];
          status := Some(ErrorNotice);
        }
      } else {
        cls := Valid;
        if Prop(license, "expires") == Str("lifetime") {
          messages := messages + [NeverExpires];
          status := Some(LifetimeNotice);
        } else if ExpiresSoonAt(expiration, now) {
          messages := messages + [ExpiresSoon(expiration.value, value)];
          status := Some(ExpiresSoonNotice);
        } else {
          messages := messages + [ExpiresOn(expiration)];
          status := Some(ExpirationDateNotice);
        }
      }
    } else {
      cls := Empty;
      messages := messages + [EnterKey(FieldName(args))];
      status := None;
    }

    var size := InputSize(args);
    var deactivate := ShowsDeactivate(license);
    var blocks: seq<StatusBlock> := [];
    for i := 0 to |messages|
      invariant |blocks| == i
      invariant forall j :: 0 <= j < i ==> blocks[j] == StatusBlock(cls, status, messages[j])
    {
      blocks := blocks + [StatusBlock(cls, status, messages[i])];
    }
    view := FieldView(value, size, deactivate, blocks);
  }

  /** Position of the first `c` in `s`, or `|s|` when there is none. */
  function IndexOf(s: string, c: char): (k: nat)
    ensures k <= |s|
    ensures c !in s[..k]
    ensures k < |s| ==> s[k] == c
    ensures c !in s <==> k == |s|
    decreases |s|
  {
    if s == [] then 0
    else if s[0] == c then 0
    else
      assert s[1..][..IndexOf(s[1..], c)] == s[1..1 + IndexOf(s[1..], c)];
      1 + IndexOf(s[1..], c)
  }

  /** The file name of an active-plugin entry: the second '/'-separated
      segment (`list( , $filename ) = explode( '/', $plugin )`), or the whole
      entry when it has no '/'. */
  function PluginFilename(plugin: string): (f: string)
    ensures '/' !in f
    ensures '/' !in plugin ==> f == plugin
  {
    if '/' in plugin then
      var rest := plugin[IndexOf(plugin, '/') + 1..];
      rest[..IndexOf(rest, '/')]
    else plugin
  }

  /** Joining a directory and a file name with '/' (and anything after a
      further '/') gives back the file name. */
  lemma {:induction false} PluginFilenameOfPath(dir: string, file: string, tail: string)
    requires '/' !in dir && '/' !in file
    ensures PluginFilename(dir + "/" + file) == file
    ensures PluginFilename(dir + "/" + file + "/" + tail) == file
  {
    var p := dir + "/" + file;
    assert p[..|dir|] == dir && p[|dir|] == '/';
    assert IndexOf(p, '/') == |dir|;
    assert p[|dir| + 1..] == file;
    var q := dir + "/" + file + "/" + tail;
    assert q[..|dir|] == dir && q[|dir|] == '/';
    assert IndexOf(q, '/') == |dir|;
    var rest := q[|dir| + 1..];
    assert rest == file + "/" + tail;
    assert rest[..|file|] == file && rest[|file|] == '/';
    assert IndexOf(rest, '/') == |file|;
  }

  /** `is_jilt_active`: collects the file name of every active plugin, then
      looks for Jilt's main file among them. */
  method IsJiltActive(activePlugins: seq<string>) returns (active: bool)
    ensures active <==> exists i :: 0 <= i < |activePlugins| && PluginFilename(activePlugins[i]) == JiltPluginFile
  {
    var filenames: seq<string> := [];
    for i := 0 to |activePlugins|
      invariant |filenames| == i
      invariant forall j :: 0 <= j < i ==> filenames[j] == PluginFilename(activePlugins[j])
    {
      var plugin := activePlugins[i];
      var filename: string;
      if '/' in plugin {
        var rest := plugin[IndexOf(plugin, '/') + 1..];
        filename := rest[..IndexOf(rest, '/')];
      } else {
        filename := plugin;
      }
      filenames := filenames + [filename];
    }
    active := JiltPluginFile in filenames;
  }
}
