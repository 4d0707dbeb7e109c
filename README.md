# launchstore form helpers and order service, modelled in Dafny

This project models two small pieces of the launchstore marketplace:

* **The form helpers of `public/scripts/scripts.js`.**
  * The masks `Mask.cpfCnpj` (Brazilian tax ids, CPF `DDD.DDD.DDD-DD` or CNPJ
    `DD.DDD.DDD/DDDD-DD`) and `Mask.cep` (postal code `DDDDD-DDD`), in `masks.dfy`.
  * The validators `Validate.isCpfCnpj` and `Validate.isCep`, in `validate.dfy`.
  * The list bookkeeping of the `PhotosUpload` widget, in `photos_upload.dfy`.
* **The order service of `src/app/services/LoadOrderService.js`**, in
  `load_order_service.dfy`. It decorates an order with its product, buyer and
  seller, its formatted prices, a status label and an "updated at" sentence.
  `load(service, filter)` dispatches to `order` or `orders` through the shared
  `this.filter`.

`wrappers.dfy` holds the `Option` type the other modules share.

## How the masks are modelled

Each mask deletes every non-digit, then drops one trailing digit when the
value is over its cap (14 for CPF/CNPJ, 8 for CEP). It then applies a chain
of `replace(/(\d{k})(\d)/, "$1<sep>$2")` calls.

Such a call has no `g` flag. It finds the leftmost place where k + 1 digits
stand in a row and writes the separator after the first k of them.
`Masks.ReplaceFirst` is exactly that step, not a general regular expression.

`Masks.Punctuate` is an independent reference. It cuts a digit string into
groups of given widths and writes a separator after a group only when more
digits follow. `ReplaceFirstExtends` proves that the source's chain of
replacements builds that layout.

The cap is applied once, so a value of 16 or more digits keeps more than 14,
for example when a longer value is pasted. The model keeps the code as
written.

## How the widget and the service are modelled

`PhotosUpload.PhotosUpload` is a class with these fields:

* `files`, the staged files;
* `inputFiles`, the `files` of the file input;
* `preview`, the child nodes of the preview container, from which
  `removePhoto` and `removeOldPhoto` take the clicked photo;
* `removedFiles`, the value of the hidden `removed_files` field, or `None`
  when the page has no such field.

`removePhoto` computes its index with `indexOf` over the preview's element
children. `PhotosUpload.ChildIndex` is that computation on the preview's
nodes. JavaScript's `splice` rules apply to the index, so `-1` (not found)
removes the last staged file.

In the order service, the collaborators are the function fields of a `Store`:

* the product loader;
* `User.findOne`;
* the rows read by `Order.findOne` / `Order.findAll`;
* `formatPrice` and `date`.

The code of those collaborators (`LoadProductService`, the models, `lib/utils`)
is not part of this model. A lookup that throws returns `Threw`. `format`,
`order` and `orders` catch every such throw, and their result becomes `null`,
standing for `undefined`. `load` has no `try`.

An order is an `OrderRecord` object. Its persisted columns are constant, and
`format` writes its decoration fields in place. `FormatSpec` is the pure
specification of `format`, and the methods are proved against it.

## Failures and half-done formatting

* An unknown status leaves `formattedStatus` undefined, and the sentence then
  opens with the word `undefined`.
* Every failure inside `format`, `order` and `orders` yields `undefined`; no
  error is passed on.
* `load` asked for a name that is not a method throws a `TypeError` to its
  caller.
* A `format` that throws half-way keeps the lookups it stored before the
  throw; `FormatStopsAtThrow` states exactly which ones.

## Model

| member | source | states |
|---|---|---|
| Masks.Cap | public/scripts/scripts.js:22-23 | `if (value.length > cap) value = value.slice(0, -1)` drops exactly one trailing character above the cap and none otherwise; the result is a prefix of its input, and digits stay digits |
| Masks.Digits | public/scripts/scripts.js:19 | `replace(/\D/g, "")` keeps only digits and is never longer than its input |
| Masks.ReplaceFirst | public/scripts/scripts.js:28 | one first-match-only step grows the value by at most one character |
| Masks.ReplaceFirstSkipsGroup | public/scripts/scripts.js:30-34 | a step passes over an already-cut group no wider than its run length and rewrites only what follows |
| Masks.ReplaceFirstExtends | public/scripts/scripts.js:28-42 | on a value punctuated with narrower groups, a step adds exactly the next group of the reference layout |
| Masks.CnpjSteps | public/scripts/scripts.js:26-34 | the four CNPJ replacements on digits give the layout with groups 2, 3, 3, 4 and separators `.`, `.`, `/`, `-` |
| Masks.CpfSteps | public/scripts/scripts.js:35-43 | the three CPF replacements on digits give the layout with groups 3, 3, 3 and separators `.`, `.`, `-` |
| Masks.CpfCnpj | public/scripts/scripts.js:17-46 | `cpfCnpj` is the reference layout of its capped digits: the CNPJ groups when more than 11 digits are kept, the CPF groups otherwise; its other properties are in the rows below |
| Masks.Cep | public/scripts/scripts.js:47-59 | `cep` is the reference layout "5 digits, `-`" of its capped digits; its other properties are in the rows below |
| Masks.DigitsOfPunctuate | public/scripts/scripts.js:25-43 | punctuation never adds, drops or reorders a digit |
| Masks.CpfCnpjKeepsDigits | public/scripts/scripts.js:17-45 | deleting the separators from the output gives the input's digits, less the last one when there were more than 14 |
| Masks.CepKeepsDigits | public/scripts/scripts.js:47-58 | deleting the separators from the output gives the input's digits, less the last one when there were more than 8 |
| Masks.CpfCnpjCap | public/scripts/scripts.js:22-23 | exactly one digit is dropped above 14 digits, none otherwise; at most 15 digits in gives at most 14 out |
| Masks.CepCap | public/scripts/scripts.js:52-53 | exactly one digit is dropped above 8 digits, none otherwise; at most 9 digits in gives at most 8 out |
| Masks.CnpjShape | public/scripts/scripts.js:25-34 | 14 digits give `DD.DDD.DDD/DDDD-DD` |
| Masks.CpfShape | public/scripts/scripts.js:36-42 | 11 digits give `DDD.DDD.DDD-DD` |
| Masks.CepDash | public/scripts/scripts.js:55-56 | `cep` writes one `-` after the fifth digit, and a `-` appears if and only if at least six digits are kept |
| Masks.CepShape | public/scripts/scripts.js:55-56 | 8 digits give `DDDDD-DDD` |
| Masks.CpfCnpjIdempotent | public/scripts/scripts.js:17-45 | masking the mask's output again changes nothing when the input has at most 15 digits |
| Masks.CepIdempotent | public/scripts/scripts.js:47-58 | masking the mask's output again changes nothing when the input has at most 9 digits |
| Validate.IsCpfCnpj | public/scripts/scripts.js:241-257 | value returned unchanged; no error iff 11 or 14 digits; "CNPJ inválido" iff over 11 and not 14; "CPF inválido" iff under 11 |
| Validate.IsCep | public/scripts/scripts.js:258-271 | value returned unchanged; no error iff exactly 8 digits, "CEP inválido" otherwise |
| Validate.MaskedCpfCnpjVerdict | public/scripts/scripts.js:244-251 | a masked tax id validates iff the mask kept 11 or 14 digits |
| Validate.MaskedCepVerdict | public/scripts/scripts.js:261-265 | a masked postal code validates iff the mask kept 8 digits |
| PhotosUpload.Photos | public/scripts/scripts.js:103-107 | every node collected is a `photo` element of the preview, and every `photo` element of the preview is collected |
| PhotosUpload.PhotosMultiset | public/scripts/scripts.js:103-107 | each `photo` element is collected as often as it occurs in the preview, and nothing else is |
| PhotosUpload.PhotosSnoc | public/scripts/scripts.js:104-106 | one more child node adds itself to the collected photos exactly when it is a `photo` element |
| PhotosUpload.OverLimit | public/scripts/scripts.js:97-110 | the two tests of `hasLimit`; a pick of more than 6 files is refused, and a pick is refused iff it and the shown photos total more than 6, so the first test is implied by the second |
| PhotosUpload.SpliceStart | public/scripts/scripts.js:152 | `splice`'s start: in range it is the index, a negative one counts from the end, past the end it is the length, below minus the length it is 0 |
| PhotosUpload.WithoutNode | public/scripts/scripts.js:155 | `photoDiv.remove()`: the node at the given position leaves the preview, the others keep their order; any other position changes nothing |
| PhotosUpload.RemovedPhotoCount | public/scripts/scripts.js:155 | removing a node lowers the preview's photo count by one exactly when that node is a photo |
| PhotosUpload.SpliceOne | public/scripts/scripts.js:152 | `files.splice(index, 1)` removes exactly the entry at the splice position and keeps the others in order; past the end nothing changes |
| PhotosUpload.ElementPositions | public/scripts/scripts.js:148 | `preview.children` by position: one entry per element node, each the position of an element, strictly increasing |
| PhotosUpload.ChildIndex | public/scripts/scripts.js:147-149 | `indexOf` over the preview's element children: `-1` iff the clicked node is not an element of the preview, otherwise the place k among the element children whose position is the clicked node's (`ElementPositions(nodes)[k] == at`); positions increase, so no other place qualifies |
| PhotosUpload.ChildIndexAfterOld | public/scripts/scripts.js:147-152 | the index counts the elements shown before the new previews: the j-th new preview after m shown elements gets index m + j, so the splice takes entry m + j of the staged files |
| PhotosUpload.SplitJoin | public/scripts/scripts.js:163 | the comma-terminated `removed_files` value reads back, id for id, the comma-free ids written into it |
| PhotosUpload.PhotosUpload.constructor | public/scripts/scripts.js:62-66 | the widget starts with no staged files and an empty input |
| PhotosUpload.PhotosUpload.HasLimit | public/scripts/scripts.js:93-117 | rejects iff more than 6 files are picked or the pick plus the preview's photo elements exceeds 6 |
| PhotosUpload.PhotosUpload.HandleFileInput | public/scripts/scripts.js:67-91 | a rejected pick leaves `files` unchanged; an accepted one appends all picked files in order, and the input is given the staged list |
| PhotosUpload.PhotosUpload.RemovePhoto | public/scripts/scripts.js:146-156 | `files` loses exactly the entry at the clicked node's element index (the last one when it is not found), the input is given the rest, and the clicked photo leaves the preview |
| PhotosUpload.PhotosUpload.RemoveOldPhoto | public/scripts/scripts.js:157-168 | `id,` is appended to `removed_files` only when the id is non-empty and the field exists; the field reads back as the ids written; the clicked photo leaves the preview; the staged files do not change |
| LoadOrderService.StatusLabel | src/app/services/LoadOrderService.js:30-36 | `open`, `sold` and `canceled` map to "Aberto", "Vendido" and "Cancelado", each label only from its key; any other status gives no label |
| LoadOrderService.StatusLabelInjective | src/app/services/LoadOrderService.js:30-34 | two statuses with the same label are the same status |
| LoadOrderService.Printed | src/app/services/LoadOrderService.js:40 | a template literal prints a present value as itself and an absent one as `undefined` |
| LoadOrderService.UpdatedAtSentence | src/app/services/LoadOrderService.js:39-40 | the whole template: the printed label and " em ", the date `day/month/year`, then " às " hour "h" minutes to the end; with no label it opens with `undefined` |
| LoadOrderService.FormatSpec | src/app/services/LoadOrderService.js:8-46 | the specification of `format`: it returns the order iff none of the three lookups throws; the fields it sets are stated by the next three rows |
| LoadOrderService.FormatReturnsOrder | src/app/services/LoadOrderService.js:8-42 | when `format` returns the order, product, buyer, seller, both prices, the label and the sentence are set from the lookups and helpers |
| LoadOrderService.FormatStopsAtThrow | src/app/services/LoadOrderService.js:8-46 | after a caught throw no display field has changed and only the lookups that returned before it are stored |
| LoadOrderService.FormatIdempotent | src/app/services/LoadOrderService.js:8-42 | formatting an order a second time leaves it as formatting it once |
| LoadOrderService.Format | src/app/services/LoadOrderService.js:8-47 | an absent order gives `undefined`; otherwise the order object is decorated in place as `FormatSpec` says and returned itself, or `undefined` after a throw |
| LoadOrderService.FormatAll | src/app/services/LoadOrderService.js:70-72 | one result per order, same length and order; each entry is its order, decorated, or `null` where `format` caught a throw |
| LoadOrderService.Instantiate | src/app/services/LoadOrderService.js:68 | `findAll` yields one new undecorated order object per row, in order |
| LoadOrderService.LoadService.Order | src/app/services/LoadOrderService.js:55-64 | `order()` reads the stored filter; a throwing or empty lookup gives `undefined`, else the new order decorated by `format` |
| LoadOrderService.LoadService.Orders | src/app/services/LoadOrderService.js:65-77 | `orders()` reads the stored filter; a throwing `findAll` gives `undefined`, else one formatted entry per row in the store's order |
| LoadOrderService.LoadService.Load | src/app/services/LoadOrderService.js:50-54 | stores the filter, then dispatches: `order`/`orders` as above, `format` gives `undefined`, `load` stores `undefined` and fails; other names fail with a `TypeError` |

## Left out

- `Mask.apply`: it defers the mask with `setTimeout`, which is event-loop timing.
- `Mask.formatBRL`: it relies on `Intl.NumberFormat` and floating-point division.
- `Validate.isEmail`: its backtracking regular expression would need a
  regular-expression engine.
- Browser rendering: `getContainer`, `getRemoveButton`, `ImageGallery`,
  `Lightbox`, and `Validate.apply`, `displayError`, `clearErrors` and
  `allFields` only touch the DOM. `getAllFiles` appears only as "the input
  receives the staged list".
- PhotosUpload.PhotosUpload.HandleFileInput: the `FileReader` previews are
  added to the preview later, when each file has been read; the model never
  adds them, so the model's `HasLimit` never counts the photos of earlier
  picks, while the source counts them once they are rendered.
- PhotosUpload.PhotosUpload.HasLimit: the `alert` messages and
  `event.preventDefault()` are left out; only the boolean result is modelled.
- PhotosUpload.PhotosUpload.RemovePhoto: `files` holds only new uploads,
  while the preview may also show old photos before them. The index then
  points past the clicked file (`ChildIndexAfterOld`). Which old photos a page
  renders depends on its markup, which is not part of this model.
- LoadOrderService.FormatReturnsOrder: `formatPrice` and `date` are taken not
  to throw. A throw in either would be caught after product, buyer and seller
  were stored, and the order would not be returned; the model cannot express
  that.
- The collaborators `LoadProductService.load`, `User.findOne`, `Order.findOne`,
  `Order.findAll`, `formatPrice` and `date` are the abstract functions of
  `Store`. Their code, and the database, are not part of this model.
- `async`/`await` and `Promise.all`: the formats of `orders` run one after
  another. They touch disjoint objects, and the lookups only read.
- `console.error` logging: a caught error is modelled only as "the result is
  `undefined`".
- `null` and `undefined` are both `None`. A decoration field that was never
  set and one set to `null` are not told apart.
- LoadOrderService.StatusLabel: keys inherited from `Object.prototype`
  (`toString`, `constructor`, …) are not modelled; the table is exactly its
  three keys.
- LoadOrderService.LoadService.Load: member names inherited from
  `Object.prototype` are treated like any other non-method name.
- JavaScript strings are UTF-16 code units while Dafny strings are characters.
  Only ASCII digits are kept, so the masks are not affected.
