/** One plugin's license (`License`): the slug its options are keyed by, the
    activate / deactivate / weekly-check operations against the remote
    licensing API, the validity test, and the once-per-request notices.
    The remote call, the nonce check and the capability check are inputs. */
module PluginLicense {
  import opened PhpValues
  import opened PhpStrings
  import opened Options
  import LicenseSettings

  /** The remote API's operation selector, `edd_action`. */
  datatype EddAction = Activate | Deactivate | Check

  /** The body of one POST to the licensing API (`item_name` before URL
      encoding; the site URL and the 15-second timeout are not modelled). */
  datatype ApiRequest = ApiRequest(action: EddAction, license: string, itemName: string)

  /** The outcome of the POST: a transport error, or the decoded JSON body. */
  datatype Response = TransportError | Delivered(body: Value)

  /** How a request handler ends: normally, or through `wp_die` with a status. */
  datatype Exit = Returned | Died(status: nat)

  /** The interval of the 'weekly' cron schedule, in seconds. */
  const WeekInSeconds := 604800

  /** A posted field whose name contains this is a deactivate button. */
  const DeactivateMarker := "license_key_deactivate"

  /** The license settings section, where the invalid-license notice is not shown. */
  const LicenseSection := "skyverge-helper"

  /** The screens the invalid-license notice appears on (the WooCommerce menu
      prefix taken untranslated). */
  const NoticeScreens := ["woocommerce_page_wc-addons", "woocommerce_page_wc-settings", "plugins"]

  /** `\s` of a byte-mode PCRE pattern: space, tab, LF, VT, FF, CR. */
  predicate IsPcreSpace(c: char) { c == ' ' || 9 <= c as int <= 13 }

  /** The characters `[^a-zA-Z0-9_\s]` does not remove. */
  predicate SlugChar(c: char) {
    'a' <= c <= 'z' || 'A' <= c <= 'Z' || IsDigit(c) || c == '_' || IsPcreSpace(c)
  }

  /** `preg_replace( '/[^a-zA-Z0-9_\s]/', '', $s )`. */
  function KeepSlugChars(s: string): (r: string)
    ensures |r| <= |s|
    ensures forall i :: 0 <= i < |r| ==> SlugChar(r[i])
    ensures forall c :: c in r ==> c in s
    ensures (forall i :: 0 <= i < |s| ==> SlugChar(s[i])) ==> r == s
    decreases |s|
  {
    if s == [] then []
    else (if SlugChar(s[0]) then [s[0]] else []) + KeepSlugChars(s[1..])
  }

  /** The first two steps of `item_shortname`: `strtolower`, then every
      space to '_'. Each character is mapped on its own. */
  function Underscored(name: string): (u: string)
    ensures |u| == |name|
    ensures forall i :: 0 <= i < |name| ==> u[i] == if name[i] == ' ' then '_' else LowerChar(name[i])
    ensures forall i :: 0 <= i < |u| ==> u[i] != ' ' && !IsUpper(u[i])
  {
    var lower := Lower(name);
    ReplaceAllChar(lower, ' ', '_');
    ReplaceAll(lower, " ", "_")
  }

  /** `item_shortname`: the underscored name with "woocommerce" turned into
      "wc", then every character outside letters, digits, '_' and whitespace
      dropped. The result has no upper-case letter and no space. */
  function Shortname(name: string): (r: string)
    ensures forall i :: 0 <= i < |r| ==> SlugChar(r[i]) && r[i] != ' ' && !IsUpper(r[i])
  {
    var underscored := Underscored(name);
    var abbreviated := ReplaceAll(underscored, "woocommerce", "wc");
    assert forall c :: c in abbreviated ==> c != ' ' && !IsUpper(c) by {
      ReplaceAllAlphabet(underscored, "woocommerce", "wc");
    }
    KeepSlugChars(abbreviated)
  }

  /** The leftmost "woocommerce" of the underscored name becomes "wc" in the
      slug: the text before it is only stripped, the text after it goes
      through the same abbreviation and stripping. */
  lemma ShortnameAbbreviates(name: string, a: string, b: string)
    requires Underscored(name) == a + "woocommerce" + b
    requires !Contains(a + "woocommerc", "woocommerce")
    ensures Shortname(name) == KeepSlugChars(a) + "wc" + KeepSlugChars(ReplaceAll(b, "woocommerce", "wc"))
  {
    var pat := "woocommerce";
    assert pat[..|pat| - 1] == "woocommerc";
    ReplaceAllAtFirst(a, b, pat, "wc");
    var rest := ReplaceAll(b, pat, "wc");
    KeepSlugCharsConcat(a + "wc", rest);
    KeepSlugCharsConcat(a, "wc");
    assert KeepSlugChars("wc") == "wc";
  }

  predicate IsSlug(s: string) {
    forall i :: 0 <= i < |s| ==> 'a' <= s[i] <= 'z' || IsDigit(s[i]) || s[i] == '_'
  }

  /** A name that is already a slug (and does not spell "woocommerce") is its
      own shortname. */
  lemma ShortnameOfSlug(name: string)
    requires IsSlug(name) && !Contains(name, "woocommerce")
    ensures Shortname(name) == name
  {
    assert Underscored(name) == name;
  }

  /** Stripping works character by character, so it distributes over
      concatenation. */
  lemma {:induction false} KeepSlugCharsConcat(a: string, b: string)
    ensures KeepSlugChars(a + b) == KeepSlugChars(a) + KeepSlugChars(b)
    decreases |a|
  {
    if a != [] {
      assert (a + b)[0] == a[0];
      assert (a + b)[1..] == a[1..] + b;
      KeepSlugCharsConcat(a[1..], b);
    } else {
      assert a + b == b;
    }
  }

  predicate IsLowerWord(w: string) {
    forall i :: 0 <= i < |w| ==> 'a' <= w[i] <= 'z'
  }

  /** Two lower-case words joined by punctuation get the shortname of the
      two words run together, whenever the joined name does not spell
      "woocommerce". */
  lemma ShortnameJoinsAroundPunctuation(a: string, c: char, b: string)
    requires IsLowerWord(a) && IsLowerWord(b) && !SlugChar(c)
    requires !Contains(a + [c] + b, "woocommerce")
    ensures Shortname(a + [c] + b) == a + b
  {
    var s := a + [c] + b;
    assert Underscored(s) == s;
    assert Shortname(s) == KeepSlugChars(s);
    KeepSlugCharsConcat(a, [c]);
    assert KeepSlugChars([c]) == [];
    assert KeepSlugChars(a + [c]) == a;
    KeepSlugCharsConcat(a + [c], b);
    assert KeepSlugChars(s) == a + b;
  }

  /** Characters are stripped only after "woocommerce" is abbreviated, so a
      name such as "woo-commerce" still has the slug "woocommerce". */
  lemma StripRunsAfterAbbreviation(c: char)
    requires !SlugChar(c)
    ensures Shortname("woo" + [c] + "commerce") == "woocommerce"
  {
    var s := "woo" + [c] + "commerce";
    assert !Contains(s[2..], "woocommerce");
    assert s[1..][..11][0] != "woocommerce"[0];
    assert !Contains(s[1..], "woocommerce");
    assert SlugChar('c');
    assert s[..11][3] != "woocommerce"[3];
    assert !Contains(s, "woocommerce");
    ShortnameJoinsAroundPunctuation("woo", c, "commerce");
    assert "woo" + "commerce" == "woocommerce";
  }

  /** `is_numeric` for the values the item id is passed as. */
  predicate IsNumeric(v: Value)
    ensures v.Int? ==> IsNumeric(v)
    ensures IsNumeric(v) && v.Str? ==> v.s != [] && IsDigit(v.s[|v.s| - 1])
    ensures v.Null? || v.Bool? || v.Arr? || v.Obj? ==> !IsNumeric(v)
  {
    v.Int? || (v.Str? && IsNumericText(v.s))
  }

  function Abs(i: int): nat { if i < 0 then -i else i }

  /** The constructor's `item_id`: `absint` of the argument when it is
      numeric, otherwise left unset. */
  function ItemIdFrom(arg: Value): (id: Option<nat>)
    ensures id.Some? <==> IsNumeric(arg)
    ensures arg.Int? ==> id == Some(Abs(arg.i))
  {
    match arg
    case Int(i) => Some(Abs(i))
    case Str(s) => if IsNumericText(s) then Some(Abs(NumericValue(s))) else None
    case _ => None
  }

  /** An id passed as its decimal text gives the same item id as the integer. */
  lemma ItemIdFromText(i: int)
    ensures ItemIdFrom(Str(IntText(i))) == ItemIdFrom(Int(i))
  {
    IntTextRoundTrip(i);
  }

  /** The stored record is an object whose `license` is exactly 'valid'. */
  predicate IsValidRecord(v: Value)
    ensures IsValidRecord(v) <==> v.Obj? && "license" in v.props && v.props["license"] == Str("valid")
  {
    v.Obj? && Prop(v, "license") == Str("valid")
  }

  /** `! empty( $_POST[ $name ] )`. */
  predicate Posted(post: map<string, string>, name: string)
    ensures Posted(post, name) <==> name in post && post[name] != "" && post[name] != "0"
  {
    name in post && Truthy(Str(post[name]))
  }

  /** Some posted field name contains the deactivate marker. */
  predicate PostsDeactivate(post: map<string, string>) {
    exists k :: k in post && Contains(k, DeactivateMarker)
  }

  /** The deactivate button of any plugin, `<slug>_license_key_deactivate`,
      stops the activation of every plugin in the same request. */
  lemma DeactivateButtonStopsActivation(post: map<string, string>, slug: string)
    requires slug + "_" + DeactivateMarker in post
    ensures PostsDeactivate(post)
  {
    ContainsInside(slug + "_", DeactivateMarker, "");
    assert slug + "_" + DeactivateMarker + "" == slug + "_" + DeactivateMarker;
  }

  /** The option table after a call whose response overwrites `name` on success. */
  function Stored(options: map<string, Value>, name: string, response: Response): map<string, Value> {
    match response
    case TransportError => options
    case Delivered(body) => options[name := body]
  }

  /** A delivered `{"license":"valid","expires":"lifetime"}` body is stored
      verbatim; the record then counts as valid, reads "never expires" at
      every time, and offers the deactivate button. */
  lemma DeliveredLifetimeRecord(options: map<string, Value>, name: string, value: Value, fieldName: Value,
                                expiration: Option<int>, now: int)
    ensures var body := Obj(map["license" := Str("valid"), "expires" := Str("lifetime")]);
            var stored := Stored(options, name, Delivered(body));
            && name in stored && stored[name] == body
            && IsValidRecord(stored[name])
            && LicenseSettings.Classify(stored[name], value, fieldName, expiration, now)
               == LicenseSettings.Classification(LicenseSettings.Valid, Some(LicenseSettings.LifetimeNotice),
                                                 LicenseSettings.NeverExpires)
            && LicenseSettings.ShowsDeactivate(stored[name])
  {
  }

  /** The settings screen reports an expired license only for a record that
      says `success: false`. The same body without that field is classed
      valid, with the plain expiration-date status. */
  lemma ExpiredNeedsFailureFlag(key: Value, fieldName: Value, expiration: Option<int>, now: int)
    requires !LicenseSettings.ExpiresSoonAt(expiration, now)
    ensures var body := map["license" := Str("invalid"), "error" := Str("expired"), "expires" := Str("2024-01-01")];
            && LicenseSettings.Classify(Obj(body["success" := Bool(false)]), key, fieldName, expiration, now)
               == LicenseSettings.Classification(LicenseSettings.Expired, Some(LicenseSettings.ExpiredNotice),
                                                 LicenseSettings.ExpiredOn(expiration, key))
            && LicenseSettings.Classify(Obj(body), key, fieldName, expiration, now)
               == LicenseSettings.Classification(LicenseSettings.Valid, Some(LicenseSettings.ExpirationDateNotice),
                                                 LicenseSettings.ExpiresOn(expiration))
            && !IsValidRecord(Obj(body)) && !LicenseSettings.ShowsDeactivate(Obj(body))
  {
  }

  /** A record that `is_license_valid` accepts always offers the deactivate
      button; its status class is `valid` exactly when it does not also say
      `success: false`. */
  lemma ValidRecordOnSettingsScreen(record: Value, value: Value, fieldName: Value, expiration: Option<int>, now: int)
    requires IsValidRecord(record)
    ensures LicenseSettings.ShowsDeactivate(record)
    ensures (LicenseSettings.Classify(record, value, fieldName, expiration, now).cls == LicenseSettings.Valid) <==>
            Prop(record, "success") != Bool(false)
  {
  }

  /** The option a key is stored under, for a given slug. */
  function KeyOptionOf(slug: string): string { slug + "_license_key" }

  /** The function-level statics of `notices` and `plugin_row_license_missing`.
      PHP shares them between every `License` object for the rest of the
      request, so all licenses of one request hold the same `NoticeFlags`. */
  class NoticeFlags {
    var showedInvalidMessage: bool
    var showedMissingKeyMessage: set<string>

    constructor ()
      ensures !showedInvalidMessage && showedMissingKeyMessage == {}
    {
      showedInvalidMessage := false;
      showedMissingKeyMessage := {};
    }
  }

  class License {
    const store: OptionStore
    const flags: NoticeFlags
    const itemName: string
    const itemId: Option<nat>
    const version: string
    const author: string
    /** The license key read when the object was built. */
    const license: string
    const shortname: string

    /** The key is read before `item_shortname` is assigned, so it is looked
        up under the slug-less name "_license_key", not under `KeyOption()`. */
    constructor (store: OptionStore, flags: NoticeFlags, itemName: string, version: string,
                 itemIdArg: Value, author: string)
      ensures this.store == store && this.flags == flags
      ensures this.itemName == itemName && this.version == version && this.author == author
      ensures itemId == ItemIdFrom(itemIdArg)
      ensures license == Trim(ToText(store.GetOr(KeyOptionOf(""), Str(""))))
      ensures shortname == Shortname(itemName)
      ensures Shortname(itemName) != "" ==> KeyOptionOf("") != KeyOption()
    {
      this.itemId := ItemIdFrom(itemIdArg);
      this.store := store;
      this.flags := flags;
      this.itemName := itemName;
      this.version := version;
      this.author := author;
      this.license := Trim(ToText(store.GetOr(KeyOptionOf(""), Str(""))));
      this.shortname := Shortname(itemName);
    }

    function KeyOption(): string { KeyOptionOf(shortname) }

    function ActiveOption(): string { shortname + "_license_active" }

    function DeactivateField(): string { shortname + "_license_key_deactivate" }

    /** The key as `notices` reads it, under this plugin's own option name. */
    function StoredKey(): (key: string)
      reads store
      ensures key == [] || (!IsTrimChar(key[0]) && !IsTrimChar(key[|key| - 1]))
      ensures KeyOption() !in store.options ==> key == ""
      ensures KeyOption() in store.options && store.options[KeyOption()].Str? ==>
                |key| <= |store.options[KeyOption()].s|
    {
      TrimStripsEnds(ToText(store.GetOr(KeyOption(), Str(""))));
      Trim(ToText(store.GetOr(KeyOption(), Str(""))))
    }

    /** `is_license_valid`. */
    function IsLicenseValid(): (r: bool)
      reads store
      ensures r <==> ActiveOption() in store.options && store.options[ActiveOption()].Obj? &&
                     "license" in store.options[ActiveOption()].props &&
                     store.options[ActiveOption()].props["license"] == Str("valid")
    {
      IsValidRecord(store.Get(ActiveOption()))
    }

    /** The data handed to the updater: the item id when it is set and
        non-zero, otherwise the item name, never both. */
    function UpdaterData(): (data: map<string, Value>)
      ensures {"version", "license", "author"} <= data.Keys
      ensures data["version"] == Str(version) && data["license"] == Str(license) && data["author"] == Str(author)
      ensures ("item_id" in data) != ("item_name" in data)
      ensures "item_id" in data <==> itemId.Some? && itemId.value != 0
      ensures "item_id" in data ==> data["item_id"] == Int(itemId.value)
      ensures "item_name" in data ==> data["item_name"] == Str(itemName)
      ensures data.Keys <= {"version", "license", "author", "item_id", "item_name"}
    {
      var base := map["version" := Str(version), "license" := Str(license), "author" := Str(author)];
      if itemId.Some? && itemId.value != 0 then base["item_id" := Int(itemId.value)]
      else base["item_name" := Str(itemName)]
    }

    /** `add_cron_schedule`: registers the weekly schedule, keeps the others. */
    function AddCronSchedule(schedules: map<string, Value>): (r: map<string, Value>)
      ensures r.Keys == schedules.Keys + {"weekly"}
      ensures r["weekly"].Arr? && "interval" in r["weekly"].entries
      ensures r["weekly"].entries["interval"] == Int(WeekInSeconds)
      ensures forall k :: k in schedules && k != "weekly" ==> r[k] == schedules[k]
    {
      schedules["weekly" := Arr(map["interval" := Int(WeekInSeconds), "display" := Str("Once per week")])]
    }

    /** The settings descriptor of this plugin's key field. */
    function LicenseField(): (s: LicenseSettings.Setting)
      ensures LicenseSettings.CallbackArgs(LicenseSettings.ParseArgs(s))
      ensures LicenseSettings.ParseArgs(s)["id"] == Str(KeyOption())
      ensures LicenseSettings.RecordOption(LicenseSettings.ParseArgs(s)) == ActiveOption()
      ensures LicenseSettings.InputSize(LicenseSettings.ParseArgs(s)) == Str("regular")
    {
      map["id" := Str(KeyOption()),
          "name" := Str(itemName),
          "desc" := Str(""),
          "type" := Str("license_key"),
          "options" := Arr(map["is_valid_license_option" := Str(ActiveOption())]),
          "size" := Str("regular")]
    }

    /** `add_settings`: appends this plugin's key field to the list. */
    function AddSettings(settings: seq<LicenseSettings.Setting>): (r: seq<LicenseSettings.Setting>)
      ensures |r| == |settings| + 1
      ensures r[..|settings|] == settings
      ensures r[|settings|] == LicenseField()
    {
      settings + [LicenseField()]
    }

    /** `activate_license`: runs on every admin request. Returns the request
        sent to the API, if any. */
    method ActivateLicense(nonceVerified: bool, canManage: bool, post: map<string, string>,
                           sanitize: string -> string, response: Response)
      returns (sent: Option<ApiRequest>)
      modifies store
      // no valid nonce or no capability: nothing happens
      ensures !nonceVerified || !canManage ==> sent == None && store.options == old(store.options)
      // an empty key: the record is deleted, and that is all
      ensures nonceVerified && canManage && !Posted(post, KeyOption()) ==>
                sent == None && store.options == old(store.options) - {ActiveOption()}
      // a deactivate button, an already valid record or a key that sanitises to empty: nothing happens
      ensures nonceVerified && canManage && Posted(post, KeyOption()) &&
              (PostsDeactivate(post) || IsValidRecord(old(store.Get(ActiveOption()))) ||
               !Truthy(Str(sanitize(post[KeyOption()])))) ==>
                sent == None && store.options == old(store.options)
      // otherwise the key is sent, and on success the decoded body replaces the record
      ensures sent.Some? ==>
                && sent.value == ApiRequest(Activate, sanitize(post[KeyOption()]), itemName)
                && store.options == Stored(old(store.options), ActiveOption(), response)
      ensures sent.Some? <==>
                nonceVerified && canManage && Posted(post, KeyOption()) && !PostsDeactivate(post) &&
                !IsValidRecord(old(store.Get(ActiveOption()))) && Truthy(Str(sanitize(post[KeyOption()])))
    {
      if !nonceVerified || !canManage {
        return None;
      }
      if !Posted(post, KeyOption()) {
        store.Delete(ActiveOption());
        return None;
      }
      var names := post.Keys;
      while names != {}
        invariant names <= post.Keys
        invariant forall k :: k in post.Keys - names ==> !Contains(k, DeactivateMarker)
        decreases names
      {
        var k :| k in names;
        if Contains(k, DeactivateMarker) {
          return None;
        }
        names := names - {k};
      }
      var details := store.Get(ActiveOption());
      if IsValidRecord(details) {
        return None;
      }
      var key := sanitize(post[KeyOption()]);
      if !Truthy(Str(key)) {
        return None;
      }
      sent := Some(ApiRequest(Activate, key, itemName));
      match response
      case TransportError =>
      case Delivered(body) =>
        store.Update(ActiveOption(), body);
    }

    /** `deactivate_license`: runs on every admin request. */
    method DeactivateLicense(nonceVerified: bool, canManage: bool, post: map<string, string>, response: Response)
      returns (exit: Exit, sent: Option<ApiRequest>)
      modifies store
      ensures KeyOption() !in post || !canManage ==> exit == Returned && sent == None
      ensures KeyOption() in post && canManage && !nonceVerified ==> exit == Died(403) && sent == None
      // the request dies only on a nonce failure, and then with 403
      ensures exit.Died? <==> KeyOption() in post && canManage && !nonceVerified
      ensures exit.Died? ==> exit == Died(403)
      ensures sent.Some? <==> KeyOption() in post && canManage && nonceVerified && DeactivateField() in post
      ensures sent.None? ==> store.options == old(store.options)
      // the stored key is sent; unless the transport fails the record is
      // deleted, whatever the response says
      ensures sent.Some? ==>
                && exit == Returned
                && sent.value == ApiRequest(Deactivate, license, itemName)
                && store.options == (if response.TransportError? then old(store.options)
                                     else old(store.options) - {ActiveOption()})
    {
      exit, sent := Returned, None;
      if KeyOption() !in post || !canManage {
        return;
      }
      if !nonceVerified {
        exit := Died(403);
        return;
      }
      if DeactivateField() in post {
        sent := Some(ApiRequest(Deactivate, license, itemName));
        if response.TransportError? {
          return;
        }
        store.Delete(ActiveOption());
      }
    }

    /** `weekly_license_check`: returns `false` on every early exit and
        nothing (`null`) after storing the response. */
    method WeeklyLicenseCheck(post: map<string, string>, response: Response)
      returns (result: Value, sent: Option<ApiRequest>)
      modifies store
      ensures sent.Some? <==> !Posted(post, KeyOption()) && Truthy(Str(license))
      ensures sent.None? ==> result == Bool(false) && store.options == old(store.options)
      ensures sent.Some? ==>
                && sent.value == ApiRequest(Check, license, itemName)
                && store.options == Stored(old(store.options), ActiveOption(), response)
                && result == (if response.TransportError? then Bool(false) else Null)
    {
      if Posted(post, KeyOption()) {
        return Bool(false), None;
      }
      if !Truthy(Str(license)) {
        return Bool(false), None;
      }
      sent := Some(ApiRequest(Check, license, itemName));
      match response
      case TransportError =>
        result := Bool(false);
      case Delivered(body) =>
        store.Update(ActiveOption(), body);
        result := Null;
    }

    /** `notices`: prints the invalid-license notice at most once per request,
        across every license. */
    method Notices(canManage: bool, screenId: string, section: Option<string>) returns (shown: bool)
      modifies flags
      ensures shown <==>
                && Truthy(Str(StoredKey()))
                && canManage
                && screenId in NoticeScreens
                && store.Get(ActiveOption()).Obj?
                && !IsValidRecord(store.Get(ActiveOption()))
                && !old(flags.showedInvalidMessage)
                && section != Some(LicenseSection)
      ensures old(flags.showedInvalidMessage) ==> !shown
      ensures flags.showedInvalidMessage == (old(flags.showedInvalidMessage) || shown)
      ensures flags.showedMissingKeyMessage == old(flags.showedMissingKeyMessage)
    {
      var record := store.Get(ActiveOption());
      shown := Truthy(Str(StoredKey())) && canManage && screenId in NoticeScreens && record.Obj?
               && !IsValidRecord(record) && !flags.showedInvalidMessage
               && section != Some(LicenseSection);
      if shown {
        flags.showedInvalidMessage := true;
      }
    }

    /** `plugin_row_license_missing`: prints the missing-key hint at most once
        per shortname per request. */
    method PluginRowLicenseMissing() returns (shown: bool)
      modifies flags
      ensures shown <==> !IsValidRecord(store.Get(ActiveOption())) && shortname !in old(flags.showedMissingKeyMessage)
      ensures flags.showedMissingKeyMessage == old(flags.showedMissingKeyMessage) + (if shown then {shortname} else {})
      ensures shortname in flags.showedMissingKeyMessage
              || IsValidRecord(store.Get(ActiveOption()))
      ensures flags.showedInvalidMessage == old(flags.showedInvalidMessage)
    {
      var record := store.Get(ActiveOption());
      shown := false;
      if !IsValidRecord(record) && shortname !in flags.showedMissingKeyMessage {
        shown := true;
        flags.showedMissingKeyMessage := flags.showedMissingKeyMessage + {shortname};
      }
    }
  }
}
