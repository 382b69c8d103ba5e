# Insurance certificate classifier: the extraction and record-keeping core

This project models the core of a Streamlit app (`UI.py`) that reads insurance
certificates. The app sends a certificate's text to a language model, which
returns JSON describing the certificate. The app then pulls that JSON out of the
reply, flattens it into a 28-field editable form, counts coverages and overdue
expiry dates for its status cards, and appends a 24-column row to a table of
saved certificates when the user presses Save Certificate. An API-settings
panel sets a "configured" flag, and both model calls check that flag first.

The model is in Dafny, one module per part:

| file | module | what it holds |
|---|---|---|
| `wrappers.dfy` | `Wrappers` | `Option` |
| `text.dfy` | `Text` | Python whitespace, `str.strip()`, string `<`, `str()` of an integer, `yyyy/mm/dd` dates, distinct-list facts |
| `values.dfy` | `Values` | decoded JSON values; Python truthiness, `in`, subscription, `dict.get`; the value the form stores |
| `reply_parser.dfy` | `ReplyParser` | `parse_structured_response`: the two regular expressions stated as what they match, the searches, the parser |
| `form.dfy` | `Form` | the 28 form keys, the blank form, `update_form_values` as a function on maps |
| `flattener.dfy` | `Flattener` | `flatten_structured_data` as a table of groups and leaves, and how it fills the form |
| `dashboard.dfy` | `Dashboard` | the status-card counters: a counting specification and the two loops proved against it |
| `records.dfy` | `Records` | the 24 table columns and the row Save Certificate builds |
| `session.dfy` | `Session` | class `AppSession`: settings, configured flag, form, saved rows, last structured reply, and the page operations that change them |

`json.loads` is modelled as a parameter `decode: string -> Option<Value>`,
where `None` is a decoding error. Python exceptions that the code catches, and
those that end the page run, are modelled as `None` (or Python's `None`,
`Null`, where the code returns it). The HTTP round trip is also a parameter:
a `Response` carries a status code and the reply content, or is `Failed` for a
request error. The values typed into the Save Certificate widgets are a
parameter too, a map from form key to text.

The app reads endpoint and key from the environment at startup
(UI.py:23-24), but the configured flag still starts `False` (UI.py:27-30), and
only Save API Settings can set it. The constructor stores the environment
values and leaves the flag cleared.

## Model

| member | source | states |
|---|---|---|
| `ReplyParser.ParseStructuredResponse` | UI.py:593-626 | A dict reply comes back unchanged as an object; a reply that is neither a dict nor a string gives `None`. |
| `ReplyParser.TaggedSearch` | UI.py:601 | The tagged pattern (DOTALL) stated as what it matches: an opening tag, whitespace, ```` ```json ````, a group, a fence, whitespace and the closing tag; `re.search` reports the leftmost start and, since the group is lazy, the shortest group there. `FindTagged` and `ParseTagged` are proved against it. |
| `ReplyParser.UntaggedSearch` | UI.py:613 | The fallback pattern stated as what it matches: the leftmost ```` ```json ```` and the first fence after it. `FindUntagged` and `ParseUntagged` are proved against it. |
| `ReplyParser.FindTagged` | UI.py:601 | The executable search finds exactly the leftmost match of the tagged pattern, with the shortest lazy group at that start, and reports no match only when none exists. |
| `ReplyParser.FindUntagged` | UI.py:613 | The executable search finds exactly the leftmost bare ```` ```json ```` block with its shortest group, and reports no match only when none exists. |
| `ReplyParser.ParseTagged` | UI.py:600-610 | When the tagged pattern matches, the result is exactly `decode` of its stripped group. A decoding failure there is final, and the fallback is not tried. |
| `ReplyParser.ParseUntagged` | UI.py:611-619 | Only when the tagged pattern matches nowhere is the first bare ```` ```json ```` block used; the result is `decode` of its stripped group. |
| `ReplyParser.ParseNoBlock` | UI.py:611-623 | Text matching neither pattern gives `None`, never a default object. |
| `ReplyParser.ParseResultIsDecoded` | UI.py:600-623 | Every object parsed from text is `decode` of some slice of that text. |
| `ReplyParser.ParseWithoutFence` | UI.py:611-623 | Text that contains no ```` ```json ```` anywhere gives `None`. |
| `ReplyParser.ParseRefusal` | UI.py:621-623 | A plain refusal sentence gives `None`. |
| `ReplyParser.ParseWrappedPayload` | UI.py:601-606 | A reply shaped as the prompt asks (tags, whitespace, fenced payload, whitespace, closing tag, any text after it) parses to `decode` of the stripped payload. It holds whenever the text before it holds no `<initial_attempt>` of its own (other tags are fine) and the payload holds no backquote. |
| `ReplyParser.ParseStrayOpenTag` | UI.py:601-603 | Why that condition is needed: when the text before the block itself starts with `<initial_attempt>` and ```` ```json ````, the match starts at that stray tag, so the decoded group begins inside the prose, ahead of the real payload, and runs to a closing fence. |
| `Text.Strip` | UI.py:603-615 | The result is a slice of the input with only whitespace cut from both ends, and it neither starts nor ends with whitespace. |
| `Text.LexLess` | UI.py:1064 | Python's `<` on strings: code point by code point, a proper prefix before its extensions. `LexLessTransitive`, `LexLessTrichotomy` and `DateStringOrder` state what it means. |
| `Text.LexLessTransitive` | UI.py:1064 | Python's string `<` is transitive. |
| `Text.LexLessTrichotomy` | UI.py:1064 | Any two strings are equal or ordered one way by `<`. |
| `Text.IntToString` | UI.py:834 | Python's `str()` of an integer: a non-empty string, a minus sign for negatives, then decimal digits; `IntToStringRoundTrip` proves it loses nothing. |
| `Text.IntToStringRoundTrip` | UI.py:833-834 | Reading back `str(i)` as a decimal gives `i` again, negatives included. |
| `Text.DateStringOrder` | UI.py:1059-1064 | For two `yyyy/mm/dd` strings, string `<` agrees with calendar order (year, then month, then day). |
| `Values.Truthy` | UI.py:1046-1064 | Python truthiness of a decoded value: `None`, `False`, `0`, `""`, `[]` and `{}` are false, everything else true. It decides the `if structured_data:` test (UI.py:758) and the dashboard's three tests; `DashboardAllVerified` and `ProcessText` state its consequences. |
| `Values.GetAgreesWithSubscript` | UI.py:780-782 | On a dict, `in` holds exactly when subscripting succeeds, and `.get(key, default)` yields what subscripting yields, or the default where subscripting would raise. |
| `Values.FormValue` | UI.py:832-836 | Integers and booleans are stored as their `str()`, which reads back as the same integer; `True`/`False` are stored as those words; other values are stored unchanged; a stored value is never a number. |
| `Values.FormValueIdempotent` | UI.py:832-836 | Storing an already stored value changes nothing. |
| `Form.BlankForm` | UI.py:58-87 | The initial form has exactly the 28 form keys, each holding `""`. |
| `Form.FormKeysDistinct` | UI.py:58-87 | The 28 keys are pairwise distinct. |
| `Form.UpdatedForm` | UI.py:829-836 | An update never adds or removes a form key. |
| `Form.UpdateWithNothing` | UI.py:829-836 | Updating with an empty dict leaves the form unchanged. |
| `Form.UpdateIdempotent` | UI.py:829-836 | Applying the same update twice is the same as applying it once. |
| `Form.UpdateExtend` | UI.py:831-836 | One more entry changes only its own key, and only if the form has that key. |
| `Form.UpdateCompose` | UI.py:829-836 | Two updates in turn equal one update with the merged dict, where the later dict wins. |
| `Form.UpdateIgnoresUnknown` | UI.py:831-832 | Keys of the flat dict that are not form keys have no effect. |
| `Form.UpdateKeepsText` | UI.py:829-836 | A form of strings stays a form of strings under an update whose values are strings, numbers or booleans. |
| `Flattener.CertificateInfoKeys` | UI.py:782-788 | The certificate group fills the form's first section, with the certificate number before the template form. |
| `Flattener.GroupKeysOfGroups` | UI.py:779-827 | The flattener's key list is its five groups' key lists, in visiting order. |
| `Flattener.GroupKeysDistinct` | UI.py:779-827 | No two leaves of the flattener fill the same form key. |
| `Flattener.GroupKeysAreFormKeys` | UI.py:779-827 | The flattener writes exactly the 28 form keys: each key it writes is a form key, and each form key is written by some leaf. |
| `Flattener.FlattenGroups` | UI.py:775-827 | `flatten_structured_data` over a list of groups visited in order: `None` for the exception an `in` test, a subscript or a `.get` raises; the `Flatten*` lemmas below state what it yields. |
| `Flattener.Flatten` | UI.py:775-827 | The app's flattener, over its five groups; it never writes a key the form lacks. |
| `Flattener.FlattenDefined` | UI.py:775-827 | The flattener succeeds exactly when every group passes its `in` test and every present group is a dict. |
| `Flattener.FlattenKeys` | UI.py:775-827 | The flat dict's keys are exactly the form keys of the leaves of the groups present in the input. |
| `Flattener.FlattenValue` | UI.py:775-827 | For distinct leaf keys, each leaf of a present group holds `.get(leaf, "")` of that group's dict. |
| `Flattener.FlattenKeysIn` | UI.py:775-827 | Every key of the flat dict is a key of the flattener's table. |
| `Flattener.FlattenAbsent` | UI.py:775-827 | For distinct leaf keys, no leaf of an absent group appears in the flat dict. |
| `Flattener.FlattenLeaf` | UI.py:775-827 | For the app's table, each leaf of a present group holds the group's value for that leaf, or `""` when the group lacks it. |
| `Flattener.FlattenLeafAbsent` | UI.py:775-827 | For the app's table, no leaf of an absent group appears in the flat dict. |
| `Flattener.FlattenDict` | UI.py:775-827 | On a dict, flattening fails exactly when some present group is not a dict. |
| `Flattener.FlattenScalar` | UI.py:780 | `None`, a boolean or a number makes the first `in` test raise. |
| `Flattener.FlattenText` | UI.py:775-827 | On text, `in` is a substring test: the result is an empty dict when no group name occurs in the text, and a failure when one does. |
| `Flattener.FlattenNoGroups` | UI.py:775-827 | A dict holding none of the five groups flattens to an empty dict. |
| `Flattener.FillFromDocument` | UI.py:756-760 | After flattening and updating, each leaf of a present group holds the stored form of `.get(leaf, "")`, and each leaf of an absent group keeps the form's old value. |
| `Dashboard.DashboardOf` | UI.py:1042-1065 | The counting specification of the status cards: zeros for a falsy reply, `None` when a test on a category raises, otherwise the number of verified, present and overdue categories. `DashboardBounds`, `DashboardTotal` and `DashboardAllVerified` state its properties. |
| `Dashboard.CountCoverage` | UI.py:1042-1065 | The two counting loops return exactly the counting specification `DashboardOf`, including `None` when an `in` test, a `.values()` call or an expiry comparison raises. |
| `Dashboard.DashboardBounds` | UI.py:1042-1065 | 0 ≤ verified ≤ total ≤ 3, and compliance issues ≤ total. |
| `Dashboard.DashboardTotal` | UI.py:1050-1055 | The total is 3 exactly when all three categories are present, and 0 exactly when none is. |
| `Dashboard.OverdueIsEarlierDate` | UI.py:1059-1065 | For `yyyy/mm/dd` dates, an expiry counts as overdue exactly when its date is before today. |
| `Dashboard.DashboardAllVerified` | UI.py:1046-1065 | Three coverage dicts, each holding at least one truthy value and no expiry date, show 3 verified coverages out of 3, with no compliance issue. |
| `Dashboard.CountMonotone` | UI.py:1050-1055 | Counting with a stronger predicate never counts more; this is what keeps verified ≤ total. |
| `Dashboard.CountAll` | UI.py:1050-1055 | The count reaches the number of categories exactly when every category satisfies the predicate. |
| `Dashboard.CountNone` | UI.py:1050-1055 | The count is 0 exactly when no category satisfies the predicate. |
| `Records.RowOf` | UI.py:1206-1230 | A dict built from cells has exactly the cells' column names as keys. |
| `Records.LayoutMatchesColumns` | UI.py:1206-1230 | The saved row names the table's 24 columns, in the table's order. |
| `Records.ColumnsDistinct` | UI.py:42-54 | The table has 24 pairwise distinct columns. |
| `Records.LayoutReadsForm` | UI.py:1206-1230 | The row reads only widgets seeded from form keys. |
| `Records.LayoutSkipsHeader` | UI.py:1206-1230 | The row reads none of the certificate number, dates, insured name, address or description widgets. |
| `Records.CertificateRow` | UI.py:1206-1230 | The `certificate_data` dict of a submitted form, built from the cell layout `RowLayout` (template form, `"1"`, `"Manually entered"`, then one widget per coverage and closing column); the `CertificateRow*` lemmas state what it holds. |
| `Records.CertificateRowColumns` | UI.py:1206-1237 | A saved row has exactly the table's columns. |
| `Records.CertificateRowCellText` | UI.py:1206-1230 | Under each column, a saved row holds the text of that column's cell. |
| `Records.CertificateRowLead` | UI.py:1207-1209 | A saved row holds the template form widget's text, page count `"1"` and file name `"Manually entered"`. |
| `Records.CertificateRowCoverage` | UI.py:1210-1230 | Each coverage and closing column of a saved row holds the text entered in the widget for the matching form key. |
| `Records.CertificateRowIgnoresHeader` | UI.py:1206-1230 | Editing a header widget that is not saved leaves the saved row unchanged. |
| `Session.RawTextAccepted` | UI.py:582-587 | Every response the OCR call reads text from (status 200) is one `raise_for_status` (UI.py:713) also lets through, with the same content; a 2xx or 3xx status other than 200 gives no text there but is parsed by the structuring call. |
| `Session.StructuredOfDict` | UI.py:596-597 | A dict returned as content is the structured data itself. |
| `Session.StructuredOfOther` | UI.py:625-626 | Content that is neither a dict nor a string gives `None`. |
| `Session.AppSession.constructor` | UI.py:27-30 | A new session holds the environment's endpoint and key, is not configured, and has a blank form, an empty table and no structured reply. |
| `Session.AppSession.SaveApiSettings` | UI.py:960-963 | Both settings are stored; afterwards the session is configured exactly when neither setting is empty; nothing else changes. |
| `Session.AppSession.GetRawText` | UI.py:154-156 | Without configuration, no request is made and the result is `None`; otherwise the result is the text of a 200 response. |
| `Session.AppSession.GetStructuredData` | UI.py:630-729 | Without configuration, no request is made and the result is `None`. A failed request or an unreadable reply gives `None` and keeps the last structured reply. Otherwise the parsed content, even `None`, becomes the last structured reply and is returned. |
| `Session.AppSession.UpdateFormValues` | UI.py:829-836 | The loop over the flat dict leaves the form equal to `UpdatedForm(old form, flat)`, whatever order it visits the keys in, and changes nothing else. |
| `Session.AppSession.ProcessText` | UI.py:747-772 | Empty text makes no request. Without configuration, or for a response the structuring call rejects, the result is `None` and the form and the last structured reply are unchanged. Otherwise the structured reply parsed from the response becomes the last structured reply; when it is truthy and flattens it is returned and the form becomes its update, and else the result is `None` and the form is unchanged. |
| `Session.AppSession.SaveCertificate` | UI.py:1204-1237 | The table grows by exactly the submitted row; earlier rows are unchanged, and every row keeps exactly the table's columns. |

## Left out

- Rendering: Streamlit layout, tabs, spinners, CSS and messages are presentation only. `st.error` and `st.success` are reports with no effect on state.
- HTTP: the requests to the model endpoint are network I/O. Each call's outcome is a `Response` parameter, and the request bodies and headers are not modelled.
- Prompts: the prompt texts are instructions to an external model, not program logic.
- OCR and files: image preprocessing, PDF rasterising, OCR, base64 data URLs and Excel export are foreign libraries and file I/O. `ProcessText` takes the extracted text as a parameter.
- `json.loads` is an oracle parameter `decode`. Its grammar and error messages are not modelled.
- Values.FormValue: covers integers and booleans only: decoded numbers are integers, and float-to-string formatting is not modelled.
- Dates: `datetime.now()` is the `today` parameter of the dashboard.
- Session.AppSession.GetStructuredData: its unexpected-exception handler (UI.py:727) calls `traceback`, which is never imported, so it raises a `NameError` and ends the page run; the model returns the `None` the handler was written to return.
- Session.AppSession.ProcessText: the same holds for its handler at UI.py:772.
- Dashboard.CountCoverage: an exception in the dashboard block ends the page run; the model returns `None` for it instead.
- Environment values: the environment's endpoint and key may be unset (Python `None`); the constructor takes them as strings, with unset read as `""`.
- Session setup: the second session-state initialiser (UI.py:875-931) only fills keys that are still missing. The module-level initialisation runs before it, so that function is not modelled separately.
- Table representation: the certificate table is a sequence of rows, each a map from column to text. pandas column types and the index are not modelled.
- Widgets: widget state, including what the user types over the seeded values, is the `entered` parameter of `SaveCertificate`.
