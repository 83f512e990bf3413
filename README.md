# SkyVerge plugin license: a Dafny model

This project models the decision logic of the SkyVerge WooCommerce plugin
updater's license handling. Two classes make up that logic:

- `License` keeps one plugin's license state in the host's option table. It
  derives the option names from a slug of the plugin name. It activates,
  deactivates and checks the key against the remote licensing API. It shows
  an invalid-license notice and a missing-key hint at most once per request.
- `License_Settings` completes each settings descriptor with defaults and a
  cleaned label. It classifies the stored license record into the status
  shown under the key field. It also detects an active Jilt plugin.

Modules and files:

- `php_values.dfy` (`PhpValues`): PHP values (`null`, booleans, integers,
  strings, arrays, objects). It defines `empty()` and `==` against a word
  literal (PHP 8 rules), and property access.
- `php_strings.dfy` (`PhpStrings`): `strtolower`, `strpos`, `str_replace`,
  `trim`, and integer text with `is_numeric`.
- `options.dfy` (`Options`): the option table as a class over a
  `map<string, Value>`, with `get_option`, `update_option` and
  `delete_option`.
- `plugin_license.dfy` (`PluginLicense`): the slug, the item id and the
  `License` class. Its methods change the option table. `NoticeFlags` holds
  the function statics that every `License` of a request shares.
- `plugin_license_settings.dfy` (`LicenseSettings`): defaults and labels, the
  status classifier `Classify`, the field callback, and the Jilt check.

Every operation is modelled on explicit inputs:

- The remote POST is a `Response` parameter: `TransportError` or
  `Delivered(body)`, where `body` is the decoded JSON value. Each operation
  returns the `ApiRequest` it would send, so "no request is made" can be
  stated.
- Nonce verification, the `manage_woocommerce` capability, `$_POST`, the
  current screen and `$_GET['section']` are parameters.
- `sanitize_text_field` and `strtotime` are function parameters.

Two behaviours of the code are reproduced as written:

- The constructor reads the key under `"{$this->item_shortname}_license_key"`
  one line before it assigns `item_shortname`. It therefore reads the option
  `_license_key`. The settings field and `notices` use `<slug>_license_key`.
  The constructor's contract states this. `weekly_license_check` and
  `deactivate_license` send the key read this way.
- `case 'valid': default:` classifies every object record whose `success` is
  not `false` as `valid`, whatever its `license` field says
  (`LicenseSettings.ValidClassWithoutButton`).

Four further behaviours of the code are worth stating plainly:

- With a valid nonce and the deactivate button posted, deactivation deletes
  the stored record unless the POST fails. It never overwrites the record
  with the response.
- Deactivation stops with a 403 only when the key field is posted, the user
  has the capability and the nonce fails. Otherwise it never stops the
  request.
- The invalid-license notice appears only on the three listed screens
  (the extensions page, the WooCommerce settings and the plugins list).
  Even there it is suppressed when `section=skyverge-helper`.
- A response is shown as an expired license only when it carries
  `success: false`. A body with `error: expired` but no `success` field is
  classed `valid` (`PluginLicense.ExpiredNeedsFailureFlag`).

## Model

| member | source | states |
|---|---|---|
| `PhpStrings.Lower` | class-skyverge-plugin-license.php:103 | `strtolower` maps each character by ASCII case and leaves no upper-case letter |
| `PhpStrings.ContainsChar` | class-skyverge-plugin-license-settings.php:521 | a one-character `strpos` search succeeds exactly when the character occurs |
| `PhpStrings.ContainsSomewhere` | class-skyverge-plugin-license.php:282 | `strpos` succeeds exactly when the needle sits at some position of the text |
| `PhpStrings.ContainsInside` | class-skyverge-plugin-license.php:281-285 | a needle placed anywhere inside a text is found |
| `PhpStrings.ReplaceAllAtFirst` | class-skyverge-plugin-license.php:103 | `str_replace` keeps the text before the leftmost occurrence, puts the replacement in its place and goes on after it |
| `PhpStrings.ReplaceAllChar` | class-skyverge-plugin-license.php:103 | a one-character `str_replace` maps every character on its own: the needle becomes the replacement, everything else stays |
| `PhpStrings.ReplaceAllAlphabet` | class-skyverge-plugin-license.php:103 | `str_replace` brings in no character that is neither in the text nor in the replacement |
| `PhpStrings.ReplaceAll` | class-skyverge-plugin-license.php:103 | `str_replace` is the identity when the needle does not occur, removes a one-character needle absent from the replacement, and never lengthens the text when deleting |
| `PhpStrings.TrimLeftKeepsSuffix` | class-skyverge-plugin-license.php:102 | `ltrim` keeps a suffix, drops only trim characters, and leaves no trim character in front |
| `PhpStrings.TrimRightKeepsPrefix` | class-skyverge-plugin-license.php:102 | `rtrim` keeps a prefix, drops only trim characters, and leaves no trim character at the end |
| `PhpStrings.TrimStripsEnds` | class-skyverge-plugin-license.php:102 | `trim` yields text that neither starts nor ends with a trim character, is the identity on already-trimmed text, and is empty for all-whitespace text |
| `PhpStrings.DigitsValueOfDecimal` | class-skyverge-plugin-license.php:91-92 | reading back the decimal text of a natural number gives that number |
| `PhpStrings.IntTextRoundTrip` | class-skyverge-plugin-license.php:91-92 | the text of any integer is numeric and converts back to the same integer |
| `PhpStrings.IsNumericText` | class-skyverge-plugin-license.php:91 | numeric integer-notation text is a sign or a digit followed by digits only, and ends in a digit |
| `PhpValues.Truthy` | class-skyverge-plugin-license.php:275 | `! empty()` fails exactly for null, false, 0, the empty string, the string "0" and the empty array |
| `PhpValues.LooselyEqualsWord` | class-skyverge-plugin-license-settings.php:253-375 | a value is loosely equal to a word literal exactly when it is that string or `true` (PHP 8 rules) |
| `PhpValues.Prop` | class-skyverge-plugin-license.php:289 | `$o->name` is the property of an object that has it, and null otherwise |
| `PhpValues.ToText` | class-skyverge-plugin-license.php:102 | a string converts to itself, an integer to numeric text that reads back as the integer, null and false to the empty string |
| `Options.OptionStore.Get` | class-skyverge-plugin-license.php:287 | `get_option` yields the stored value, or `false` when the option does not exist |
| `Options.OptionStore.GetOr` | class-skyverge-plugin-license.php:102 | `get_option` with a default yields the stored value, or the default when the option does not exist |
| `PluginLicense.KeepSlugChars` | class-skyverge-plugin-license.php:103 | the character filter keeps only letters, digits, `_` and whitespace, keeps only characters of its input, and leaves a string of such characters unchanged |
| `PluginLicense.KeepSlugCharsConcat` | class-skyverge-plugin-license.php:103 | the character filter distributes over concatenation |
| `PluginLicense.Underscored` | class-skyverge-plugin-license.php:103 | lower-casing and underscoring keep the length and map each space to `_` and each other character to its lower case |
| `PluginLicense.ShortnameAbbreviates` | class-skyverge-plugin-license.php:103 | the leftmost "woocommerce" of the underscored name becomes "wc" in the slug; the text before it is only stripped and the text after it is abbreviated and stripped in turn |
| `PluginLicense.Shortname` | class-skyverge-plugin-license.php:103 | the slug contains only letters, digits, `_` and whitespace, with no upper-case letter and no space |
| `PluginLicense.ShortnameOfSlug` | class-skyverge-plugin-license.php:103 | a lower-case slug that does not spell "woocommerce" is its own shortname |
| `PluginLicense.StripRunsAfterAbbreviation` | class-skyverge-plugin-license.php:103 | stripping runs after the abbreviation, so "woo" + c + "commerce" with any stripped character c (such as "woo-commerce") has the slug "woocommerce" |
| `PluginLicense.ItemIdFrom` | class-skyverge-plugin-license.php:91-93 | the item id is set exactly when the argument is numeric, and is the absolute value of an integer argument |
| `PluginLicense.ItemIdFromText` | class-skyverge-plugin-license.php:91-93 | an id passed as its decimal text gives the same item id as the integer |
| `PluginLicense.IsNumeric` | class-skyverge-plugin-license.php:91 | an integer is numeric, numeric integer-notation text ends in a digit, and null, booleans, arrays and objects are not numeric |
| `PluginLicense.IsValidRecord` | class-skyverge-plugin-license.php:289 | a record is valid exactly when it is an object holding a `license` property that is the string `valid` |
| `PluginLicense.Posted` | class-skyverge-plugin-license.php:275 | a field counts as posted exactly when it is present and neither empty nor "0" |
| `PluginLicense.DeactivateButtonStopsActivation` | class-skyverge-plugin-license.php:280-285 | posting the deactivate button of any plugin stops the activation of every plugin in that request |
| `PluginLicense.DeliveredLifetimeRecord` | class-skyverge-plugin-license.php:324-326 | a delivered valid lifetime body is stored verbatim, is valid, classifies as never expiring at any time, and shows the deactivate button |
| `PluginLicense.ExpiredNeedsFailureFlag` | class-skyverge-plugin-license-settings.php:251-259 | an expired-error body is classed `expired` with the renewal message carrying the key only when it says `success: false`; without that field, and when the parsed date is not within the next 30 days, it is classed `valid` with the expiration-date status |
| `PluginLicense.ValidRecordOnSettingsScreen` | class-skyverge-plugin-license-settings.php:324-375 | a record `is_license_valid` accepts always shows the deactivate button and is classed `valid` exactly when it does not say `success: false` |
| `PluginLicense.NoticeFlags.constructor` | class-skyverge-plugin-license.php:444 | a request starts with no notice shown and no shortname hinted |
| `PluginLicense.License.constructor` | class-skyverge-plugin-license.php:89-107 | stores the absolute numeric item id, reads and trims the key under `_license_key` (the slug is not yet set), then sets the slug |
| `PluginLicense.License.IsLicenseValid` | class-skyverge-plugin-license.php:384-389 | valid iff the stored active record is an object whose `license` property is exactly `'valid'` |
| `PluginLicense.License.StoredKey` | class-skyverge-plugin-license.php:448 | the key `notices` reads under `<slug>_license_key` is trimmed at both ends, empty when the option is missing, and never longer than the stored text |
| `PluginLicense.License.UpdaterData` | class-skyverge-plugin-license.php:174-190 | the updater gets version, key and author, plus the item id when it is set and non-zero, else the item name, never both |
| `PluginLicense.License.AddCronSchedule` | class-skyverge-plugin-license.php:201-210 | adds a `weekly` schedule of 604800 seconds and keeps every other schedule |
| `PluginLicense.License.LicenseField` | class-skyverge-plugin-license.php:236-245 | the key field is `<slug>_license_key`, its record option is `<slug>_license_active`, its size is `regular`, and it satisfies the field callback's argument shape |
| `PluginLicense.License.AddSettings` | class-skyverge-plugin-license.php:234-248 | appends exactly this plugin's key field after the existing settings |
| `PluginLicense.License.ActivateLicense` | class-skyverge-plugin-license.php:269-327 | a bad nonce or missing capability changes nothing; an empty posted key only deletes the record; a posted deactivate field, an already valid record or an empty sanitised key changes nothing and sends nothing; otherwise the key is sent and a delivered body replaces the record, while a transport error leaves it |
| `PluginLicense.License.DeactivateLicense` | class-skyverge-plugin-license.php:335-374 | returns silently without the key field or capability; dies, and only then, with 403 on a bad nonce; with the deactivate button it sends the stored key and deletes the record unless the transport failed, whatever the response says; nothing else changes the store |
| `PluginLicense.License.WeeklyLicenseCheck` | class-skyverge-plugin-license.php:399-433 | returns false with no request and no change when a key is posted or the stored key is empty; otherwise sends the stored key, stores a delivered body wholesale, and leaves the store on a transport error |
| `PluginLicense.License.Notices` | class-skyverge-plugin-license.php:441-479 | the invalid-license notice is shown iff the key is non-empty, the user may manage, the screen is one of three, the record is a non-valid object, no notice was shown earlier in the request and the section is not `skyverge-helper`; once shown it is never shown again in the request |
| `PluginLicense.License.PluginRowLicenseMissing` | class-skyverge-plugin-license.php:487-498 | the missing-key hint is shown iff the record is not valid and this shortname has not been hinted in the request, and then the shortname is remembered |
| `Options.OptionStore.Update` | class-skyverge-plugin-license.php:326 | `update_option` replaces the stored value and nothing else |
| `Options.OptionStore.Delete` | class-skyverge-plugin-license.php:276 | `delete_option` removes the option and nothing else |
| `LicenseSettings.ParseArgs` | class-skyverge-plugin-license-settings.php:193-213 | a descriptor's own entries win and every missing key takes the listed default |
| `LicenseSettings.FieldLabel` | class-skyverge-plugin-license-settings.php:217 | the label is never longer than the name and equals it when it holds no "WooCommerce " |
| `LicenseSettings.FieldLabelRemovesFirst` | class-skyverge-plugin-license-settings.php:217 | the leftmost "WooCommerce " is removed from the label, the text before it is kept and removal goes on after it |
| `LicenseSettings.LabelRemovalIsSinglePass` | class-skyverge-plugin-license-settings.php:217 | removal is one pass: "WooWooCommerce Commerce " becomes "WooCommerce " |
| `LicenseSettings.RegisterSettings` | class-skyverge-plugin-license-settings.php:180-226 | registers one field per descriptor, in order, with the merged arguments and the cleaned label |
| `LicenseSettings.FailureMessage` | class-skyverge-plugin-license-settings.php:253-322 | `revoked`, `missing`, `item_name_mismatch`, `no_activations_left` and `license_not_activable` each select their own message; `invalid` and `site_inactive` share one and, like `item_name_mismatch`, carry the field name; any other error falls to the default message carrying the error, or `unknown_error` when the error is empty |
| `LicenseSettings.Classify` | class-skyverge-plugin-license-settings.php:248-366 | a non-object record is `empty` with no status and the enter-key message carrying the field name; a failure record is `expired` (status expired, renewal message carrying the displayed key) for the expired error and `error` (status error) otherwise; every other object is `valid`, with the lifetime status iff `expires` is `'lifetime'`, the expires-soon status iff the date lies in the next 30 days, and the expiration-date status otherwise |
| `LicenseSettings.LifetimeAtAnyTime` | class-skyverge-plugin-license-settings.php:334-337 | a valid lifetime record classifies the same, as never expiring, at every time and for every parsed date |
| `LicenseSettings.DisplayValue` | class-skyverge-plugin-license-settings.php:242-246 | the field shows the stored key when truthy, else `std` when set, else the empty string |
| `LicenseSettings.InputSize` | class-skyverge-plugin-license-settings.php:370 | the input size is the descriptor's size, `regular` when unset or null |
| `LicenseSettings.ShowsDeactivate` | class-skyverge-plugin-license-settings.php:373-375 | the deactivate button shows iff the record object's `license`, or a non-object record itself, is loosely `'valid'` (the string or `true`) |
| `LicenseSettings.ValidClassWithoutButton` | class-skyverge-plugin-license-settings.php:324-330 | a record with `license` `'invalid'` and `success` true is classed `valid` yet shows no deactivate button |
| `LicenseSettings.LicenseKeyCallback` | class-skyverge-plugin-license-settings.php:236-388 | renders exactly one status block, carrying the classification of the stored record, with the display value, the size and the button decided as above |
| `LicenseSettings.IndexOf` | class-skyverge-plugin-license-settings.php:521 | finds the first occurrence of a character, or the length when there is none |
| `LicenseSettings.PluginFilename` | class-skyverge-plugin-license-settings.php:519-533 | a plugin's file name never contains `/` and is the whole entry when the entry has none |
| `LicenseSettings.PluginFilenameOfPath` | class-skyverge-plugin-license-settings.php:524 | the file name of `dir/file`, and of `dir/file/...`, is `file` |
| `LicenseSettings.IsJiltActive` | class-skyverge-plugin-license-settings.php:509-536 | true iff the file name of some active plugin is `jilt-for-woocommerce.php` |

## Left out

- HTML and script output is not modelled: `output`, `get_jilt_banner`, `add_settings_tab`, `change_active_tab`, `move_output`, `current_screen`, `add_styles`, the markup of `license_key_callback`, and every translated message text. Messages are tags carrying the values they interpolate: the field name, the key of a renewal link, the parsed date or the error code. Constant links are not carried, and dates are not formatted.
- Hook and cron wiring is not modelled: `includes`, `add_hooks`, `schedule_events`, `wp_schedule_event`, `apply_filters`, `get_license_settings`. They only register callbacks with the host.
- The `Updater` class is not part of this model. `UpdaterData` states the data handed to it.
- `set_site_transient( 'update_plugins', null )` after a successful activation is not modelled. It is a host cache flush.
- The POST (`wp_remote_post`), its 15-second timeout, `urlencode` of the item name, `home_url` and `json_decode` are not modelled. The decoded body is an input.
- `wp_verify_nonce`, `current_user_can`, `sanitize_text_field`, `sanitize_html_class`, `sanitize_title`, `esc_*` and `wp_kses_post` are host functions. They are inputs or are not modelled. `field_class` is not appended to the class.
- `strtotime`, `current_time`, `date_i18n` and the date format are host functions. The parsed date and `now` are inputs.
- `settings_sanitize` is not modelled. It is never called, because the registered callback is `sv_settings_sanitize`, which does not exist.
- The multisite branch of `is_jilt_active` is not modelled. The caller passes the merged plugin list.
- `get_license_settings_url` and `get_license_settings_instance` are not modelled. They return a constant URL and a stored object.
- The `notices` screen prefix is the untranslated "woocommerce".
- PhpStrings.IsNumericText: accepts only integer notation (an optional sign and digits). PHP's `is_numeric` also accepts decimals ("1.", "1.5"), exponents ("1e3"), leading whitespace and, under PHP 8, trailing whitespace.
- PluginLicense.IsNumeric: inherits the same narrowing. A string such as "1.5", "1e3" or "12 " is numeric in PHP but not in the model.
- PluginLicense.ItemIdFrom: treats only integer notation (an optional sign and digits) as numeric. PHP's decimals, exponents and surrounding whitespace are not covered.
- Floats are not represented among PHP values.
- Loose comparisons use PHP 8 rules. Under PHP 7, `0 == 'valid'` would hold.
- PhpValues.ToText: an object or an array has no string form in PHP. `trim` of an array raises a type error under PHP 8, and `str_replace` on an array name works element by element. The model gives the empty string for an object and "Array" for an array. Stored keys and setting names are strings in every path the updater itself writes.
- PluginLicense.ItemIdFrom: integers are unbounded. PHP's `absint` of a numeric string beyond the 64-bit range saturates at `PHP_INT_MAX`, and the absolute value of `PHP_INT_MIN` is not an integer. The model returns the exact absolute value.
- WordPress serialisation of stored values is not modelled. A stored `null` reads back as `''` in WordPress. Both are falsy non-objects, so no check in the model tells them apart.
- `$_POST` values are strings. Array-valued fields are not represented.
- The `file`, `path` and `plugin_url` fields are not modelled. They only feed hooks, paths and URLs.
