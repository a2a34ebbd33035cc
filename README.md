# Device registration form: a verified model

The repository is a React dialog, `DeviceFormModal`, for registering a device
(model, price, type, brand, protocols, photo, description), opened from a host
view `App`. This project models the part of the dialog that has rules:

- **Offered protocols** (`getAvailableProtocols`): the device-type selection
  is read with `parseInt`; `NaN` and `0` select nothing; otherwise the link
  table is filtered on that device id, mapped to protocol ids, and the
  protocol catalogue is filtered on those ids. Modelled in
  `ProtocolCatalogue.dfy`, with `parseInt` and the rendering of ids and prices
  as text in `NumberParsing.dfy`.
- **Checked protocols** (`handleProtocolChange`): an id already checked is
  removed, every occurrence of it; otherwise it is appended. Modelled in
  `Selection.dfy`.
- **Price box**: empty text clears the price; text that `parseInt` reads as a
  non-negative integer sets it; anything else leaves it as it was. **Photo
  picker**: only a present file of type `image/jpeg` or `image/png` is kept,
  with a preview and no error message; every other case, no file included,
  clears photo and preview and shows the error message. Modelled in
  `FieldRules.dfy`.
- **The component's state** (`useState` slots) and its handlers: the class
  `DeviceFormModal` in `DeviceForm.dfy`, with the host's `isOpen` flag, which
  submit and cancel both clear. Its object invariant `Valid()` states what
  every handler keeps: the price is unset or non-negative, a kept photo is a
  JPEG or PNG with a preview, the error message is shown only while no photo
  is kept, and no protocol id is checked twice.

Behaviour of the code that the model keeps as written:

- Changing the device type does not touch the checked protocols, so ids that
  are no longer offered stay checked (`DeviceForm.ProtocolScenario` shows one
  such run). Since only offered protocols get a check box, such an id cannot
  be unchecked until a device type linked to that protocol is chosen.
- Closing does not reset the draft: reopening shows the previous values.
- The submit handler awaits the POST (src/components/DeviceFormModal.tsx:328)
  and closes only after it has settled, whatever the outcome: an HTTP error
  status and a rejected request both end in the closed dialog.
- Checking a box again after unchecking it moves its id to the end of the
  list (`Selection.ToggleTwicePresent`).

## Model

| member | source | states |
|---|---|---|
| `NumberParsing.DigitRunLength` | src/components/DeviceFormModal.tsx:209 | the digits `parseInt` reads are the longest prefix of decimal digits: all of it is digits and the next character is not |
| `NumberParsing.ShowNat` | src/components/DeviceFormModal.tsx:203 | a rendered count is a non-empty string of digits without a leading zero |
| `NumberParsing.ParseShowInt` | src/components/DeviceFormModal.tsx:233-237 | `parseInt` of the text an integer renders as (an option value, the price box) gives that integer back |
| `NumberParsing.ParseIntNeedsDigit` | src/components/DeviceFormModal.tsx:99-100 | text without a digit, the empty selection among it, is `NaN` |
| `ProtocolCatalogue.LinkedProtocolIds` | src/components/DeviceFormModal.tsx:101-103 | the ids collected from the link table are exactly the protocol ids some row links to the device id, at most one per row |
| `ProtocolCatalogue.KeepListed` | src/components/DeviceFormModal.tsx:104-106 | a protocol is kept iff it is in the catalogue and its id is among the collected ids |
| `ProtocolCatalogue.NoDeviceNoProtocols` | src/components/DeviceFormModal.tsx:99-100 | a selection that parses to `NaN` or to `0` offers no protocol |
| `ProtocolCatalogue.EmptySelectionNoProtocols` | src/components/DeviceFormModal.tsx:62 | the initial empty device type offers no protocol |
| `ProtocolCatalogue.AvailableMembership` | src/components/DeviceFormModal.tsx:98-107 | a protocol is offered iff it is in the catalogue and a link row joins its id to the selected non-zero device id |
| `ProtocolCatalogue.AvailableIsSubsequence` | src/components/DeviceFormModal.tsx:104-106 | the offered list is a subsequence of the catalogue: catalogue order, nothing added |
| `ProtocolCatalogue.AvailableCounts` | src/components/DeviceFormModal.tsx:104-106 | an offered protocol occurs as often as in the catalogue (duplicates pass through), any other not at all |
| `ProtocolCatalogue.ChoosingDeviceType` | src/components/DeviceFormModal.tsx:233-237 | choosing the option of device type `t` offers exactly the catalogue protocols linked to `t.id`, and nothing when `t.id` is `0` |
| `Selection.Without` | src/components/DeviceFormModal.tsx:112 | removing `p` leaves no `p` and keeps the membership of every other id |
| `Selection.Toggle` | src/components/DeviceFormModal.tsx:110-114 | toggling flips whether `p` is checked and keeps whether every other id is checked |
| `Selection.WithoutIsSubsequence` | src/components/DeviceFormModal.tsx:112 | removal keeps the order of what remains |
| `Selection.WithoutCounts` | src/components/DeviceFormModal.tsx:112 | removal drops every copy of `p` and keeps the count of every other id |
| `Selection.ToggleKeepsOthers` | src/components/DeviceFormModal.tsx:110-114 | with `p` erased, the list before and after a toggle of `p` are equal: other ids keep membership, count and relative order |
| `Selection.ToggleCounts` | src/components/DeviceFormModal.tsx:110-114 | unchecking removes all copies of `p` and is a subsequence of the list; checking adds exactly one `p` |
| `Selection.ToggleKeepsDistinct` | src/components/DeviceFormModal.tsx:110-114 | a list without repeats stays without repeats |
| `Selection.ToggleTwiceAbsent` | src/components/DeviceFormModal.tsx:110-114 | checking then unchecking an id restores the list exactly |
| `Selection.ToggleTwicePresent` | src/components/DeviceFormModal.tsx:110-114 | unchecking then checking an id moves it to the end |
| `FieldRules.NextPrice` | src/components/DeviceFormModal.tsx:204-212 | the price rule keeps "unset or non-negative" |
| `FieldRules.NextPriceOutcomes` | src/components/DeviceFormModal.tsx:206-210 | empty text clears the price; text read as n >= 0 sets it to n; negative or unreadable text keeps the previous price |
| `FieldRules.NextPriceSources` | src/components/DeviceFormModal.tsx:204-212 | the new price is unset, the old price, or what the text reads as |
| `FieldRules.NextPriceIdempotent` | src/components/DeviceFormModal.tsx:204-212 | the same text received twice has the effect of receiving it once |
| `FieldRules.PriceTextRoundTrip` | src/components/DeviceFormModal.tsx:203-212 | feeding back the text the box shows for a valid price yields that price, whatever the price before |
| `FieldRules.RefusedPhotos` | src/components/DeviceFormModal.tsx:155-158 | no file is refused; a file is kept iff its type is `image/jpeg` or `image/png`; `text/plain`, GIF, WebP and `image/jpg` are refused |
| `DeviceForm.DeviceFormModal.constructor` | src/components/DeviceFormModal.tsx:55-69 | the first render: closed, nothing checked, no price, no device type, no photo, no preview, no message; the invariant holds |
| `DeviceForm.DeviceFormModal.OnPhotoChange` | src/components/DeviceFormModal.tsx:153-169 | an accepted file becomes the photo with a preview and no message; otherwise photo and preview are cleared and the message shown; nothing else changes; the invariant is kept |
| `DeviceForm.DeviceFormModal.OnPriceChange` | src/components/DeviceFormModal.tsx:204-212 | the price becomes `NextPrice` of the old price; nothing else changes; the invariant is kept |
| `DeviceForm.DeviceFormModal.OnDeviceTypeChange` | src/components/DeviceFormModal.tsx:230 | only the device type changes; the checked protocols are not pruned |
| `DeviceForm.DeviceFormModal.OnProtocolChange` | src/components/DeviceFormModal.tsx:109-115 | the checked list becomes its toggle; nothing else changes; no id is checked twice |
| `DeviceForm.DeviceFormModal.Submit` | src/components/DeviceFormModal.tsx:325-339 | whatever the request's outcome, the dialog ends closed and the draft is unchanged |
| `DeviceForm.DeviceFormModal.Cancel` | src/components/DeviceFormModal.tsx:343-349 | cancel closes the dialog and changes nothing else |
| `DeviceForm.DeviceFormModal.Open` | src/App.tsx:14 | the trigger opens the dialog and resets nothing |

## Left out

- Loading the reference data (src/components/DeviceFormModal.tsx:71-96): the fetches are asynchronous browser I/O, `device_type.json` is fetched twice, and a failed fetch leaves its list empty. The protocol catalogue and the link table are constructor parameters; the device-type and brand lists only fill drop-downs and are not held.
- The submit request itself, its JSON body and the console output (src/components/DeviceFormModal.tsx:117-129, 326-337): network I/O and serialisation. The body omits the checked protocols and carries the photo as a browser `File`. `Submit` takes the settled outcome as a parameter; a request that never settles, which keeps the dialog open, is not modelled.
- `URL.createObjectURL` (src/components/DeviceFormModal.tsx:161): a browser API; its result is a parameter of `OnPhotoChange`. Object URLs are never revoked, and that is not modelled.
- Clearing the file input's own text after a refusal (src/components/DeviceFormModal.tsx:164): DOM state, not component state.
- A `null` file list and an empty one are both the empty sequence; both yield no file.
- The plain text fields and their setters (model, variation, brand, comment, link, description, topic, final-device flag): each `onChange` copies the input into its slot and has no rule to state.
- `NumberParsing.ParseInt`: follows `parseInt` without a radix on decimal text (leading white space, one sign, the longest run of digits). Not modelled: a `0x` prefix read as hexadecimal, white space other than space, tab, line feed and carriage return. `-0` is the integer 0, and numbers are unbounded integers, so values beyond 2^53 are exact.
- JSX rendering, the flowbite-react widgets, styling and the modal's chrome. Among rendering details: the device-type drop-down shows its first option while the state is still the empty string, which offers no protocol.
- src/App.tsx beyond its flag: `handleModal` is never used.
