# Digital business card: a verified model of its core

The application is a Next.js/React digital business card. A card owner
activates an account with an access key sold with the card and signs into a
dashboard. There, the owner edits the card's Pix payment settings, a product
catalogue, the order of the contact links and a contact form. A visitor of
the public card can:

- pay through a Pix QR code whose "copia e cola" text the browser builds;
- browse product images in a slider;
- save the contact as a vCard;
- submit the contact form.

This project models that logic in Dafny and proves what it promises. The
modules follow the source files:

| module | file | models |
|---|---|---|
| `Common` | `common.dfy` | the JavaScript string and number operations the code relies on: `replace(/\D/g, "")`, `toString`, `padStart`, `slice`, `split`, `join`, `trim`, ASCII `toUpperCase`/`toLowerCase` |
| `Crc16` | `crc16.dfy` | `crc16` of the two Pix components, proved equal to CRC-16/CCITT-FALSE |
| `Currency` | `currency.dfy` | the Pix modal's `formatCurrency` and `parseCurrency`, on integer cents |
| `PixPayload` | `pix_payload.dfy` | `generatePixPayload` as EMVCo data objects of the BR Code profile, and as the components build it |
| `PixModal` | `pix_modal.dfy` | the payment modal as a class: the amount field, the amount gate, QR generation, back and close |
| `PixManager` | `pix_manager.dfy` | the dashboard's Pix editor: `validatePixKey`, its e-mail regular expression, the auto-regeneration, and the save request |
| `Lists` | `lists.dfy` | element moves by `splice` and dnd-kit's `arrayMove`, shared by the two drag-and-drop editors |
| `CatalogManager` | `catalog_manager.dfy` | the catalogue editor as a class, its image reordering on an array, and the catalogue as persisted |
| `LinkOrderManager` | `link_order_manager.dfy` | the contact-link editor: default order, resolution of a saved order, drag end, and the two per-link flags |
| `FormTypes` | `form_types.dfy` | the contact-form records of `src/types/profile.ts` |
| `FormManager` | `form_manager.dfy` | the contact-form editor: loading, the toggles, saving, deleting, and the CSV export |
| `ContactFormView` | `contact_form.dfy` | the public contact form: the required-field check, the submitted record, and what is rendered |
| `AccessKeys` | `access_keys.dfy` | `validateAccessKey` over a key table and a clock |
| `ActivatePage` | `activate_page.dfy` | the `/ativar` page as a two-step state machine class |
| `RegisterPage` | `register_page.dfy` | the guards of the registration page and its username normalisation |
| `ImageSlider` | `image_slider.dfy` | the slider's index arithmetic and what it renders |
| `DigitalCard` | `digital_card.dfy` | `hexToRgba`, the vCard text and the `pixEnabled` flag |

Conventions:

- **Strings** are Dafny `string`s, sequences of Unicode scalar values. For
  text in the Basic Multilingual Plane each character is exactly one UTF-16
  code unit, so `.length`, `slice` and `charCodeAt` count and read the
  characters; the model covers only such text (see "Left out").
- **Amounts** are integer numbers of cents. In the source, for amounts of at
  most 15 digits of cents, `parseFloat(digits) / 100` followed by `toFixed(2)`
  gives back the same cents; the model states that directly (see "Left out"
  for longer inputs).
- **The CRC accumulator** is a `bv32`. JavaScript's `<<`, `^` and `&` act on
  a 32-bit two's-complement pattern.
- **The database, the clock, the router and the QR library** are parameters
  or fields. A library call that can throw enters as an `Option`.

Where the code's behaviour may surprise a reader, the model follows the code:

- Data-object lengths are `.length`, which counts UTF-16 code units, not
  UTF-8 bytes. A non-ASCII beneficiary name gets a length prefix smaller than
  its UTF-8 byte count.
- Every Pix key is encoded with its non-digits removed, whatever its type
  (`PixPayload.EncodedKey`). An e-mail or random key is therefore encoded as
  its digits alone, as the code does.
- The CSV header line is joined without quotes (FormManager.tsx:127). Only
  the data cells are quoted.
- register/page.tsx:29 contains the HTML entity `&lt;` where a `<`
  comparison is evidently meant. The model reads it as `<`.
- `handleDragEnd` (LinkOrderManager.tsx:181) reads `over.id` without
  checking `over`. A drop outside every item (`over` is null) is modelled as
  leaving the list unchanged.
- `saveProduct` takes the order from `editingItem?.order || items.length`
  (CatalogManager.tsx:195). An edited item whose order is 0 therefore gets
  the list's length as its order. The model keeps that fallback.

## Model

| member | source | states |
|---|---|---|
| Crc16.Crc16Js | src/components/PixModal.tsx:54-67 | The four characters returned are the upper-case, zero-padded hex of the CRC-16/CCITT-FALSE of the text. This holds although the accumulator is never masked inside the loop and each code unit is shifted in whole. The same function is copied at PixManager.tsx:79-92. |
| Crc16.Crc16Ccitt | src/components/PixModal.tsx:54-67 | The reference CRC-16/CCITT-FALSE (initial value 0xFFFF, polynomial 0x1021, one byte per character) that the loop is compared with. Its result always fits 16 bits; Crc16Js, RefFromAppend and CheckValue state the rest. |
| Crc16.Hex4 | src/components/PixModal.tsx:66 | Definition of `toString(16).toUpperCase().padStart(4, "0")`. Hex4Format and Hex4Injective state its properties. |
| Crc16.DivideByte | src/components/PixModal.tsx:58-64 | The eight conditional shift-and-XOR steps on the unmasked 32-bit accumulator leave the same low 16 bits as eight steps of the 16-bit reference register. |
| Crc16.OuterStep | src/components/PixModal.tsx:57-64 | XOR-ing a code unit in at bit 8 and dividing is one byte update of the reference CRC. Only the low byte of the code unit reaches the low 16 bits. |
| Crc16.RefFromAppend | src/components/PixModal.tsx:56-65 | The CRC of a concatenation continues from the CRC of its first part. |
| Crc16.OnlyLowBytesMatter | src/components/PixModal.tsx:57 | Two texts whose code units agree in their low bytes have the same CRC. |
| Crc16.UpperLowerHex | src/components/PixModal.tsx:66 | `toString(16).toUpperCase()` gives upper-case hex digits whose value is the number. |
| Crc16.Hex4Format | src/components/PixModal.tsx:66 | Padded to four, the text of a 16-bit value has exactly four upper-case hex digits and reads back as that value. |
| Crc16.Hex4Injective | src/components/PixModal.tsx:66 | Distinct 16-bit checksums are written as distinct texts. |
| Crc16.CheckValue | src/components/PixModal.tsx:54-67 | The CRC of "123456789" is 0x29B1, the published check value of CRC-16/CCITT-FALSE. |
| Crc16.CheckText | src/components/PixModal.tsx:66 | The check value 0x29B1 is written "29B1". |
| Currency.ParseCentsNoDigits | src/components/PixModal.tsx:41-45 | A text without digits parses as zero. |
| Currency.ParseCents | src/components/PixModal.tsx:41-45 | Definition of `parseCurrency` in cents: the value of the text's digits. ParseCentsNoDigits, FormatThenParse, TypeDigit and DeleteLast state its properties. |
| Currency.Fixed2 | src/components/PixModal.tsx:86 | Definition of `toFixed(2)` on an amount in cents. Fixed2Shape and Fixed2Digits state its properties. |
| Currency.FormatCurrency | src/components/PixModal.tsx:34-39 | Definition of `formatCurrency`: "" without digits, otherwise "R$ " and the `toFixed(2)` text with its point made a comma. FormatCurrencyShape, FormatThenParse and FormatIdempotent state its properties. |
| Currency.FormatCurrencyShape | src/components/PixModal.tsx:34-39 | A text with a digit is formatted as "R$ ", then the whole reais of its cents, a comma and exactly two decimals. |
| Currency.Fixed2Digits | src/components/PixModal.tsx:84-86 | `toFixed(2)` of an amount contains the digits of the whole part followed by the two decimals, so parsing it gives back the cents. |
| Currency.Fixed2Shape | src/components/PixModal.tsx:86 | `toFixed(2)` writes digits, a point third from the end, and two digits. Whole part times 100 plus decimals is the amount. |
| Currency.FormattedDigits | src/components/PixModal.tsx:34-39 | The digits of a formatted amount are the whole part followed by the two decimals. |
| Currency.FormatThenParse | src/components/PixModal.tsx:34-45 | Parsing the formatted text gives the amount of the raw text: formatting never changes the value. |
| Currency.FormatIdempotent | src/components/PixModal.tsx:47-52 | Reformatting the text the field already holds leaves it unchanged. |
| Currency.TypeDigit | src/components/PixModal.tsx:234-241 | Typing a digit after the displayed amount multiplies the cents by ten and adds that digit. |
| Currency.DeleteDigit | src/components/PixModal.tsx:234-241 | Deleting the last character of the displayed amount divides the cents by ten, rounding down. |
| Currency.DeleteLast | src/components/PixModal.tsx:41-45 | Removing a trailing digit from any text divides its parsed cents by ten. |
| PixPayload.EmitAppend | src/components/PixModal.tsx:104 | Writing the concatenation of two object lists concatenates their texts. |
| PixPayload.Body | src/components/PixModal.tsx:70-105 | Definition of the text the checksum is taken over: the pushed objects written out, followed by "6304". PayloadObjectsWithCrc and PayloadChecksumValid state its properties. |
| PixPayload.Payload | src/components/PixModal.tsx:69-107 | Definition of `generatePixPayload`: the body followed by its four-digit CRC. PayloadParses, PayloadChecksumValid, PayloadFieldValues, PayloadNameCity and AmountField state its properties. |
| PixPayload.ParseOne | src/components/PixModal.tsx:87-89 | A written object starts with its ID, then two digits that state its value's length, then the value, then whatever follows. |
| PixPayload.ParseEmit | src/components/PixModal.tsx:69-107 | Well-formed objects written one after another read back as exactly those objects (round trip of the ID-length-value grammar). |
| PixPayload.EncodedKey | src/components/PixModal.tsx:73 | The encoded key holds only digits and is never longer than the key. |
| PixPayload.MerchantAccountLength | src/components/PixModal.tsx:74-79 | The merchant account value is 22 characters plus the encoded key. It fits the two-digit length exactly when the key has at most 77 digits. |
| PixPayload.MerchantParses | src/components/PixModal.tsx:74-79 | The merchant account value reads back as the Pix GUI "br.gov.bcb.pix" (00) and the encoded key (01). |
| PixPayload.PayloadGroups | src/components/PixModal.tsx:70-102 | The objects are the four fixed leading ones, the optional amount, and the three trailing ones, in that order. |
| PixPayload.PayloadChecksumValid | src/components/PixModal.tsx:104-106 | Every payload ends in "6304" and four characters that are the CRC of everything before them, as a reader checks it. |
| PixPayload.CrcObject | src/components/PixModal.tsx:104-106 | Appending "6304" and a four-character CRC is writing the CRC object (ID 63, length 04). |
| PixPayload.PayloadObjectsWithCrc | src/components/PixModal.tsx:104-106 | The whole payload is the written list of its objects followed by the CRC object. |
| PixPayload.PayloadParses | src/components/PixModal.tsx:69-107 | When the key and the amount fit their lengths, the payload parses into exactly: format, merchant account, category, currency, the amount if positive, country, name, city, and CRC. |
| PixPayload.PayloadFieldValues | src/components/PixModal.tsx:71-82 | The payload carries format version "01", the merchant account, category "0000" and currency "986". |
| PixPayload.PayloadNameCity | src/components/PixModal.tsx:92-102 | The payload carries country "BR", the first 25 characters of the name and the first 15 of the city, and no CRC field before the end. |
| PixPayload.AmountField | src/components/PixModal.tsx:84-90 | The amount field is present exactly when the amount is positive. It holds `toFixed(2)`, which parses back to the amount. |
| PixPayload.NoAmountField | src/components/dashboard/PixManager.tsx:94-117 | The payload without an amount has no field 54 and seven objects before the CRC. |
| PixPayload.TruncationIdempotent | src/components/PixModal.tsx:94-102 | Truncating the name and city beforehand gives the same payload. |
| PixPayload.AmountExample | src/components/PixModal.tsx:84-90 | An amount of 10.50 is written "540510.50". |
| PixPayload.FixedTexts | src/components/PixModal.tsx:71-92 | The literal strings pushed are the written format, category, currency and country objects. |
| PixPayload.GeneratePayloadWithAmount | src/components/PixModal.tsx:69-107 | Pushing the items, joining them and appending "6304" and its `crc16` yields exactly the payload of the amount the field holds. |
| PixPayload.GeneratePayload | src/components/dashboard/PixManager.tsx:94-117 | The dashboard's variant yields exactly the payload of a zero amount. |
| PixPayload.Emit | src/components/PixModal.tsx:74-101 | Definition of one pushed object: the ID, the `length.toString().padStart(2, "0")` prefix and the value. ParseOne states that it reads back, and EmitAppend that writing distributes over lists. |
| PixPayload.EmitAll | src/components/PixModal.tsx:104 | Definition of `payloadItems.join("")` over the written objects. EmitAppend and ParseEmit state its properties. |
| PixPayload.MerchantAccount | src/components/PixModal.tsx:73-79 | Definition of the object 26 with the GUI `br.gov.bcb.pix` (00) and the encoded key (01). MerchantAccountLength and MerchantParses state its properties. |
| PixPayload.PayloadObjects | src/components/PixModal.tsx:70-102 | Definition of the objects pushed, in push order. PayloadGroups, PayloadObjectsWithCrc and PayloadParses state its properties. |
| PixPayload.Leading | src/components/PixModal.tsx:71-82 | Definition of the four objects pushed before the amount. PayloadGroups, LeadingValues and LeadingAbsent state their properties. |
| PixPayload.LeadingValues | src/components/PixModal.tsx:71-82 | The leading objects hold the format "01", the merchant account, the category "0000" and the currency "986". |
| PixPayload.LeadingAbsent | src/components/PixModal.tsx:71-82 | The leading objects hold no amount, country, name, city or CRC field. |
| PixPayload.AmountObjects | src/components/PixModal.tsx:84-90 | Definition of the object 54 pushed only for a positive amount. AmountValues and AmountField state its properties. |
| PixPayload.AmountValues | src/components/PixModal.tsx:84-90 | Field 54 is `toFixed(2)` of the amount when it is positive and absent otherwise, and no other field appears. |
| PixPayload.Trailing | src/components/PixModal.tsx:92-102 | Definition of the country, name and city objects. TrailingValues and PayloadNameCity state their properties. |
| PixPayload.TrailingValues | src/components/PixModal.tsx:92-102 | The trailing objects hold "BR", the first 25 characters of the name and the first 15 of the city, and no amount or CRC field. |
| PixModal.RefusedIff | src/components/PixModal.tsx:143-150 | The QR button refuses exactly the amounts whose parsed cents are zero; an accepted amount has a digit. |
| PixModal.Refused | src/components/PixModal.tsx:143-150 | Definition of the gate `!numbers || numericValue <= 0` on the amount's digits. RefusedIff and TypedAmountAccepted state its properties. |
| PixModal.TypedAmountAccepted | src/components/PixModal.tsx:135-154 | Whatever the payer typed, a formatted amount of at least one cent passes the gate and keeps its value. |
| PixModal.AcceptedPayloadHasAmount | src/components/PixModal.tsx:84-90 | An amount that passes the gate appears in the payload's field 54. |
| PixModal.Modal.constructor | src/components/PixModal.tsx:26-31 | The modal starts with no amount, no payload, no QR and no error. |
| PixModal.Modal.HandleAmountChange | src/components/PixModal.tsx:47-52 | The field holds the formatted text of what was typed; nothing else changes. The source never calls this function (see "Left out"). |
| PixModal.Modal.AmountInput | src/components/PixModal.tsx:234-241 | Typing formats the amount and clears the error. |
| PixModal.Modal.HandleGenerateQR | src/components/PixModal.tsx:135-154 | A refused amount shows "* Obrigatório Digitar Valor" and changes nothing else. An accepted one clears the error and stores the payload of its cents; the QR view opens only when the library returns a URL. |
| PixModal.Modal.ShowPayload | src/components/PixModal.tsx:109-133 | The payload is stored before the QR library runs; the URL and the QR view change only when it succeeds. |
| PixModal.Modal.BackToAmount | src/components/PixModal.tsx:267 | "Back" hides the QR and keeps everything else. |
| PixModal.Modal.Close | src/components/PixModal.tsx:168-176 | Closing clears the amount, payload, URL and QR view, but not the error. |
| PixManager.MatchEmailIff | src/components/dashboard/PixManager.tsx:68 | The first-`@` matcher accepts exactly the language of `^[^\s@]+@[^\s@]+\.[^\s@]+$`: three non-empty runs without white space or "@", separated by "@" and ".". |
| PixManager.MatchEmail | src/components/dashboard/PixManager.tsx:68 | The first-"@" matcher for the e-mail expression. MatchEmailIff, MatchEmailSound and MatchEmailComplete prove it equal to the expression's language. |
| PixManager.ValidatePixKey | src/components/dashboard/PixManager.tsx:59-77 | Definition of `validatePixKey`'s switch. ValidatePixKeyCases, SeparatorsIgnored and EncodedKeyDigits state its properties. |
| PixManager.ShouldAutoGenerate | src/components/dashboard/PixManager.tsx:49-53 | The guard of the `formData` effect: key, name and city all non-empty. The constructor and HandleChange state what follows from it. |
| PixManager.MatchEmailSound | src/components/dashboard/PixManager.tsx:68 | Every text the matcher accepts is in the language of the expression. |
| PixManager.MatchEmailComplete | src/components/dashboard/PixManager.tsx:68 | Every text in the language of the expression is accepted by the matcher (the backtracking direction). |
| PixManager.MatchDomainIff | src/components/dashboard/PixManager.tsx:68 | After the "@", the text matches exactly when some "." splits it into two non-empty runs. |
| PixManager.IndexOf | src/components/dashboard/PixManager.tsx:68 | The index returned holds the character, and no earlier index does. None means the character is absent. |
| PixManager.ValidatePixKeyCases | src/components/dashboard/PixManager.tsx:59-77 | CPF has 11 digits, CNPJ 14, phone 10 or 11; e-mail follows the expression; a random key has 32 characters; any other type is invalid. |
| PixManager.SeparatorsIgnored | src/components/dashboard/PixManager.tsx:61-71 | For CPF, CNPJ and phone keys, only the digits decide validity. |
| PixManager.EncodedKeyDigits | src/components/dashboard/PixManager.tsx:99 | A valid key is encoded as digits only. An e-mail key loses its "@" in the payload. |
| PixManager.WithField | src/components/dashboard/PixManager.tsx:55-57 | `handleChange` sets the named field and keeps the other three. |
| PixManager.SaveRequest | src/components/dashboard/PixManager.tsx:153-183 | Nothing is saved exactly when the key is invalid for its type. Otherwise Pix is enabled, and both the key with its type and the whole form are written. |
| PixManager.ManagerPayloadHasNoAmount | src/components/dashboard/PixManager.tsx:94-117 | The dashboard's payload never has an amount field, and its checksum is valid. |
| PixManager.Manager.constructor | src/components/dashboard/PixManager.tsx:20-53 | The editor starts from the form loaded from the profile. The `formData` effect then runs: a complete form gets the URL and payload `GenerateQRCode` gives it, and an incomplete one has no URL and no payload. |
| PixManager.Manager.GenerateQRCode | src/components/dashboard/PixManager.tsx:119-145 | An invalid key clears the URL and payload. A valid one stores the payload without amount, then the URL, or "" when the library throws. |
| PixManager.Manager.HandleChange | src/components/dashboard/PixManager.tsx:49-57 | The field changes. The QR is regenerated exactly when key, name and city are all non-empty; otherwise URL and payload are kept. |
| PixManager.AtomChar | src/components/dashboard/PixManager.tsx:68 | Definition of the class `[^\s@]` of the e-mail expression. MatchEmailIff states what the matcher built on it accepts. |
| PixManager.Atom | src/components/dashboard/PixManager.tsx:68 | Definition of `[^\s@]+`. MatchDomainIff and MatchEmailIff state its role. |
| Lists.RemoveAt | src/components/dashboard/CatalogManager.tsx:118 | `filter((_, i) => i !== index)`: every element but the one at the index, in order. An index out of range changes nothing. |
| Lists.InsertAt | src/components/dashboard/CatalogManager.tsx:138 | `splice(i, 0, x)`: `x` at position `i`, the elements before it kept, the ones after it shifted by one. |
| Lists.RemoveAtMultiset | src/components/dashboard/CatalogManager.tsx:137 | Removing an element and adding it back gives the same multiset. |
| Lists.InsertAtMultiset | src/components/dashboard/CatalogManager.tsx:138 | Inserting adds exactly that element to the multiset. |
| Lists.RemoveInsert | src/components/dashboard/CatalogManager.tsx:137-138 | Removing what was just inserted gives the list back. |
| Lists.InsertRemove | src/components/dashboard/CatalogManager.tsx:137-138 | Putting a removed element back where it was gives the list back. |
| Lists.MovePermutes | src/components/dashboard/CatalogManager.tsx:135-138 | A move is a permutation of the list. |
| Lists.Move | src/components/dashboard/LinkOrderManager.tsx:185 | dnd-kit's `arrayMove`, which is also the two-`splice` image move: remove at `from`, insert at `to`. It keeps the length. MovePermutes, MoveAt, MoveClamped, MoveSame and MoveBack state the rest. |
| Lists.MoveAt | src/components/dashboard/CatalogManager.tsx:135-138 | Each position after a move holds a stated position of the original. |
| Lists.MoveClamped | src/components/dashboard/CatalogManager.tsx:138 | A drop index past the end acts like the last index, as `splice` clamps it. |
| Lists.MoveSame | src/components/dashboard/LinkOrderManager.tsx:185 | Moving an element onto itself changes nothing. |
| Lists.MoveBack | src/components/dashboard/LinkOrderManager.tsx:185 | Dragging an element back to where it came from restores the list. |
| CatalogManager.ParsePrice | src/components/dashboard/CatalogManager.tsx:63-66 | The price is NaN exactly when the text has no digit. |
| CatalogManager.ParsePriceCents | src/components/dashboard/CatalogManager.tsx:63-66 | With a digit, the price is the same number of cents the Pix modal reads. |
| CatalogManager.ParseRenderedPrice | src/components/dashboard/CatalogManager.tsx:53-66 | Any rendering whose digits are the whole part followed by two decimals parses back to its amount, whatever sign, separators or thousands grouping it adds. |
| CatalogManager.ParseFormattedPrice | src/components/dashboard/CatalogManager.tsx:53-66 | A rendering with a digit-free prefix, the whole part, a digit-free separator and two decimals (such as "R$ 12,34") parses back to its amount. |
| CatalogManager.GroupedPriceExample | src/components/dashboard/CatalogManager.tsx:53-66 | The grouped pt-BR rendering "R$ 1.234,56" parses back to 1234.56 reais. |
| CatalogManager.CoverImage | src/components/dashboard/CatalogManager.tsx:193 | The cover is the first image, or "" when there is none. |
| CatalogManager.ReplaceById | src/components/dashboard/CatalogManager.tsx:207 | Every item with the edited id is replaced; the others stay in place. |
| CatalogManager.NewItem | src/components/dashboard/CatalogManager.tsx:186-203 | Definition of the item `saveProduct` builds. SaveEditing, SaveAdding and ReopenSaved state its fields. |
| CatalogManager.SaveItems | src/components/dashboard/CatalogManager.tsx:186-209 | Definition of `saveProduct`'s new list: the item replaced by id when editing, appended otherwise. SaveEditing and SaveAdding state its properties. |
| CatalogManager.SaveEditing | src/components/dashboard/CatalogManager.tsx:186-207 | Saving an edit keeps the other items and the length. The edited item keeps its hidden flag and its id (a fresh one if it had none). Its order falls back to the list length when it was 0. Name, description, parsed price, images, cover image, link and button fields come from the form. |
| CatalogManager.SaveAdding | src/components/dashboard/CatalogManager.tsx:186-209 | Saving a new product appends one visible item with the fresh id, and keeps the earlier items. Its order is the old length, and its cover is the first image. Name, description, parsed price, images, link and button fields come from the form. |
| CatalogManager.OrElse | src/components/dashboard/CatalogManager.tsx:152-159 | JavaScript's logical-or fallback on a text keeps a non-empty text and replaces an empty one by the fallback. |
| CatalogManager.ButtonShown | src/components/dashboard/CatalogManager.tsx:152-159 | The shown button text, link type and Pix key type are never empty, a fully set button is shown as stored, and only those three texts can differ from what is stored. |
| CatalogManager.ButtonShownIdempotent | src/components/dashboard/CatalogManager.tsx:152-159 | Applying the defaults twice is applying them once. |
| CatalogManager.ButtonShownDefaults | src/components/dashboard/CatalogManager.tsx:152-159 | An item with no button fields stored shows the same button settings as a new product. |
| CatalogManager.ImagesOf | src/components/dashboard/CatalogManager.tsx:151 | A stored image list is shown as it is, even when empty. Without one, the single image is shown if it is non-empty, and otherwise nothing. |
| CatalogManager.FormOf | src/components/dashboard/CatalogManager.tsx:147-160 | The form for an item carries its name, description, shown images, link and shown button fields, with the given price text. |
| CatalogManager.ReopenSaved | src/components/dashboard/CatalogManager.tsx:145-207 | Reopening a saved item shows the form it was saved from, except for two things. The price text is rendered anew and is a parameter here (see "Left out" for its float rendering). Empty button texts take their defaults. |
| CatalogManager.ToggleVisibility | src/components/dashboard/CatalogManager.tsx:215-219 | Exactly the items with the id flip their hidden flag. |
| CatalogManager.ToggleTwice | src/components/dashboard/CatalogManager.tsx:215-219 | Toggling twice restores the catalogue. |
| CatalogManager.RemoveItem | src/components/dashboard/CatalogManager.tsx:221-225 | No item with the id is left, every item left was in the list, and the list does not grow. |
| CatalogManager.RemoveItemAppend | src/components/dashboard/CatalogManager.tsx:223 | Removal distributes over concatenation, so the remaining items keep their relative order. |
| CatalogManager.RemoveItemKeeps | src/components/dashboard/CatalogManager.tsx:223 | Every item with another id survives. |
| CatalogManager.RemoveItemAbsent | src/components/dashboard/CatalogManager.tsx:223 | Removing an absent id changes nothing. |
| CatalogManager.Renumber | src/components/dashboard/CatalogManager.tsx:234-237 | The persisted items are numbered 0, 1, 2, …; nothing but the order changes. |
| CatalogManager.RenumberIdempotent | src/components/dashboard/CatalogManager.tsx:234-237 | Renumbering a renumbered catalogue changes nothing. |
| CatalogManager.RenumberAfterRemove | src/components/dashboard/CatalogManager.tsx:221-237 | After a removal, the persisted orders are again 0, 1, 2, … without gaps. Every persisted item is a stored item with another id, apart from its order, and every stored item with another id is persisted. |
| CatalogManager.SpliceMove | src/components/dashboard/CatalogManager.tsx:135-138 | The in-place two-`splice` move leaves the array equal to the specification `Move` of its old contents. |
| CatalogManager.ArrayOf | src/components/dashboard/CatalogManager.tsx:135 | `[...formData.images]` is a fresh array with the same contents. |
| CatalogManager.ShiftDown | src/components/dashboard/CatalogManager.tsx:137 | The elements after the removed one move one place down; the rest stay. |
| CatalogManager.ShiftUp | src/components/dashboard/CatalogManager.tsx:138 | The elements from the insertion point move one place up; the rest stay. |
| CatalogManager.DropPlacesImage | src/components/dashboard/CatalogManager.tsx:130-142 | After a drop, the dragged image is at the drop index, and no image is lost or duplicated. |
| CatalogManager.Catalog.constructor | src/components/dashboard/CatalogManager.tsx:27-51 | The editor starts with the stored items, the empty form, no modal and no drag. |
| CatalogManager.Catalog.OpenModal | src/components/dashboard/CatalogManager.tsx:144-179 | Opening for a new product resets the form to its defaults. Opening for an item shows its name, description and link, `images || [image]`, and its button fields with the defaults for empty texts; the price text is the given rendering. Both record what is edited and open the modal. |
| CatalogManager.Catalog.AddImageUrl | src/components/dashboard/CatalogManager.tsx:108-113 | A non-empty answer to the prompt is appended to the images. A cancelled or empty one changes nothing. |
| CatalogManager.Catalog.RemoveImage | src/components/dashboard/CatalogManager.tsx:115-120 | Exactly the image at the index is removed. |
| CatalogManager.Catalog.HandleDragStart | src/components/dashboard/CatalogManager.tsx:122-124 | The dragged index is recorded. |
| CatalogManager.Catalog.HandleDrop | src/components/dashboard/CatalogManager.tsx:130-142 | Without a drag, nothing changes. Otherwise the dragged image moves to the drop index and the drag ends. |
| CatalogManager.Catalog.CloseModal | src/components/dashboard/CatalogManager.tsx:181-184 | The modal closes and nothing is being edited. |
| CatalogManager.Catalog.SaveProduct | src/components/dashboard/CatalogManager.tsx:186-213 | The items become the saved catalogue (see SaveEditing and SaveAdding), and the modal closes. |
| CatalogManager.Catalog.ToggleItemVisibility | src/components/dashboard/CatalogManager.tsx:215-219 | The items become their toggled form. |
| CatalogManager.Catalog.RemoveCatalogItem | src/components/dashboard/CatalogManager.tsx:221-225 | A confirmed removal removes the item; a declined one changes nothing. |
| CatalogManager.Catalog.Persisted | src/components/dashboard/CatalogManager.tsx:234-237 | What is written is the items in their current order, each unchanged except that its order is its index. |
| LinkOrderManager.Ids | src/components/dashboard/LinkOrderManager.tsx:211 | The id list has one entry per link: each link's id, at that link's position. |
| LinkOrderManager.Find | src/components/dashboard/LinkOrderManager.tsx:169 | Finding gives a contact with that id, or nothing exactly when none has it. |
| LinkOrderManager.FindDistinct | src/components/dashboard/LinkOrderManager.tsx:169 | With distinct ids, finding a contact's id gives that contact. |
| LinkOrderManager.AvailableDistinct | src/components/dashboard/LinkOrderManager.tsx:124-165 | The thirteen available contacts have distinct ids, listed in the default order. |
| LinkOrderManager.ResolveKnown | src/components/dashboard/LinkOrderManager.tsx:168-170 | A resolved order holds only available contacts. |
| LinkOrderManager.Resolve | src/components/dashboard/LinkOrderManager.tsx:168-170 | Resolving a saved order: each id becomes its contact, and unknown ids are dropped. It is never longer than the order; ResolveOne, ResolveAppend, ResolveKnown, ResolveOnlyListed and ResolveIds state the rest. |
| LinkOrderManager.ResolveOrder | src/components/dashboard/LinkOrderManager.tsx:151-170 | The saved order resolved against the available contacts, or the default order when none is saved. DefaultResolution states its result without a saved order. |
| LinkOrderManager.ResolveOnlyListed | src/components/dashboard/LinkOrderManager.tsx:168-170 | Every resolved contact's id appears in the saved order. |
| LinkOrderManager.ResolveAppend | src/components/dashboard/LinkOrderManager.tsx:168-170 | Resolving a concatenation concatenates the resolutions. |
| LinkOrderManager.ResolveOne | src/components/dashboard/LinkOrderManager.tsx:168-170 | An unknown id is dropped (`filter(Boolean)`), and a known one becomes its contact. |
| LinkOrderManager.ResolveIds | src/components/dashboard/LinkOrderManager.tsx:168-170 | Resolving the ids of available contacts gives back exactly those contacts. |
| LinkOrderManager.DefaultResolution | src/components/dashboard/LinkOrderManager.tsx:151-170 | Without a saved order, all thirteen contacts appear in the default order. |
| LinkOrderManager.Toggle | src/components/dashboard/LinkOrderManager.tsx:190-202 | `[id]: !prev[id]`: that key becomes the negation of its truthiness, and every other key is unchanged. |
| LinkOrderManager.ToggleActiveShown | src/components/dashboard/LinkOrderManager.tsx:267 | A link never toggled is shown, and stays shown after its first toggle. After that, each toggle flips it. Other links are unaffected. |
| LinkOrderManager.ToggleIconOnlyShown | src/components/dashboard/LinkOrderManager.tsx:268 | Each toggle flips whether the link shows only its icon; other links are unaffected. |
| LinkOrderManager.ToggleTwice | src/components/dashboard/LinkOrderManager.tsx:190-202 | Toggling a stored flag twice restores the map. |
| LinkOrderManager.IndexOfId | src/components/dashboard/LinkOrderManager.tsx:183-184 | `findIndex` gives the first position holding the id. |
| LinkOrderManager.DragEndPermutes | src/components/dashboard/LinkOrderManager.tsx:178-188 | A drag end permutes the links and puts the dragged one where the target was. |
| LinkOrderManager.SaveLoadAfterDrag | src/components/dashboard/LinkOrderManager.tsx:168-211 | The order saved after a drag is loaded back as exactly the dragged list. |
| LinkOrderManager.Editor.constructor | src/components/dashboard/LinkOrderManager.tsx:172-174 | The editor starts from the resolved saved order and the saved flag maps, or empty maps. |
| LinkOrderManager.Editor.HandleDragEnd | src/components/dashboard/LinkOrderManager.tsx:178-188 | A drop on itself or outside changes nothing. Otherwise the dragged link moves to the target's index, and the flags are kept. |
| LinkOrderManager.Editor.HandleToggleActive | src/components/dashboard/LinkOrderManager.tsx:190-195 | Only the active map changes, by `Toggle`. |
| LinkOrderManager.Editor.HandleToggleIconOnly | src/components/dashboard/LinkOrderManager.tsx:197-202 | Only the icon-only map changes, by `Toggle`. |
| LinkOrderManager.Editor.SavedOrder | src/components/dashboard/LinkOrderManager.tsx:211 | The saved order lists the ids of the links in their current order. |
| LinkOrderManager.AvailableContacts | src/components/dashboard/LinkOrderManager.tsx:124-146 | Definition of the thirteen contacts, without their icons. AvailableDistinct states their ids. |
| LinkOrderManager.DefaultOrder | src/components/dashboard/LinkOrderManager.tsx:151-165 | Definition of the fallback order. AvailableDistinct and DefaultResolution state its properties. |
| LinkOrderManager.ResolveId | src/components/dashboard/LinkOrderManager.tsx:169-170 | One id of `map(find).filter(Boolean)` yields at most one contact. ResolveOne states which. |
| LinkOrderManager.Flag | src/components/dashboard/LinkOrderManager.tsx:193 | Definition of `prev[id]` read as a boolean, with an absent key falsy. Toggle states its use. |
| LinkOrderManager.IsActive | src/components/dashboard/LinkOrderManager.tsx:267 | Definition of `contactActive[item.id] !== false`. ToggleActiveShown states how toggles change it. |
| LinkOrderManager.IsIconOnly | src/components/dashboard/LinkOrderManager.tsx:268 | Definition of `contactIconOnly[item.id] === true`. ToggleIconOnlyShown states how toggles change it. |
| FormTypes.OrEmpty | src/components/dashboard/FormManager.tsx:180 | An absent optional text defaults to the empty text; a present one is kept. |
| FormManager.LoadConfig | src/components/dashboard/FormManager.tsx:58-75 | Without a stored form, the default configuration is used. A stored form is kept, but gets the default fields when it has none. |
| FormManager.LoadWithoutFields | src/components/dashboard/FormManager.tsx:23-56 | The default fields are name, e-mail, phone and message, all enabled, and all but the phone required. |
| FormManager.ToggleRequired | src/components/dashboard/FormManager.tsx:149-151 | Exactly the fields with the id flip their required flag. |
| FormManager.ToggleEnabled | src/components/dashboard/FormManager.tsx:158-160 | Exactly the fields with the id flip their enabled flag. |
| FormManager.ToggleFieldRequired | src/components/dashboard/FormManager.tsx:146-153 | Only the field list changes. |
| FormManager.ToggleFieldEnabled | src/components/dashboard/FormManager.tsx:155-162 | Only the field list changes. |
| FormManager.ToggleRequiredTwice | src/components/dashboard/FormManager.tsx:146-153 | Toggling required twice restores the configuration. |
| FormManager.ToggleEnabledTwice | src/components/dashboard/FormManager.tsx:155-162 | Toggling enabled twice restores the configuration. |
| FormManager.TogglesCommute | src/components/dashboard/FormManager.tsx:146-162 | The two toggles commute. |
| FormManager.SaveConfig | src/components/dashboard/FormManager.tsx:178-192 | Missing texts are saved as "". Missing or empty terms are saved as null. A missing field list is saved as an empty one, and an existing list keeps its length. |
| FormManager.NormalizeFields | src/components/dashboard/FormManager.tsx:184-191 | Each field is coerced on its own, in place. |
| FormManager.SaveKeepsFields | src/components/dashboard/FormManager.tsx:184-191 | A saved field keeps its id, label, type and flags; its placeholder defaults to "". |
| FormManager.SaveIdempotent | src/components/dashboard/FormManager.tsx:178-192 | Saving a saved configuration changes nothing. |
| FormManager.DeleteConfig | src/components/dashboard/FormManager.tsx:222 | Deleting only disables the form; nothing else changes. |
| FormManager.EscapeNoNewline | src/components/dashboard/FormManager.tsx:122 | The escaped message has no line feed, so its cell stays on its line. |
| FormManager.UnescapeEscape | src/components/dashboard/FormManager.tsx:122-128 | Reading `""` as `"` in the quoted cell gives the message back, its line feeds turned into spaces. |
| FormManager.EscapePlain | src/components/dashboard/FormManager.tsx:122 | A message without line feeds or quotes is written as it is. |
| FormManager.Row | src/components/dashboard/FormManager.tsx:118-124 | The cells of a submission are its name, its e-mail, its phone or "", its escaped message and its date text. |
| FormManager.Lines | src/components/dashboard/FormManager.tsx:128 | One line per submission, each with its quoted cells joined by commas. |
| FormManager.ExportCsv | src/components/dashboard/FormManager.tsx:110-131 | Nothing is exported exactly when there are no submissions. An export starts with the byte-order mark. |
| FormManager.CsvLines | src/components/dashboard/FormManager.tsx:116-131 | With single-line cells, the text after the byte-order mark splits at line feeds into the header line and one line per submission, in order. |
| FormManager.DefaultFields | src/components/dashboard/FormManager.tsx:23-56 | Definition of `defaultFields`. LoadWithoutFields states its contents. |
| FormManager.DefaultConfig | src/components/dashboard/FormManager.tsx:58-65 | Definition of the initial `formConfig`. LoadConfig states that it is loaded when nothing is stored. |
| FormManager.NormalizeField | src/components/dashboard/FormManager.tsx:184-191 | Definition of one field's coercions, with `placeholder \|\| ""`. NormalizeFields and SaveKeepsFields state its properties. |
| FormManager.Headers | src/components/dashboard/FormManager.tsx:116 | Definition of the five column titles. CsvLines states that they form the first line. |
| FormManager.EscapeChar | src/components/dashboard/FormManager.tsx:122 | Definition of one character of the escaped message: a line feed as a space, a `"` doubled. EscapeNoNewline and UnescapeEscape state the properties of the whole message. |
| FormManager.EscapeMessage | src/components/dashboard/FormManager.tsx:122 | Definition of `replace(/\n/g, " ").replace(/"/g, '""')`. EscapeNoNewline, UnescapeEscape and EscapePlain state its properties. |
| FormManager.Quote | src/components/dashboard/FormManager.tsx:128 | Definition of `` `"${cell}"` ``. UnescapeEscape states what a reader of the quoted cell gets back. |
| FormManager.Quoted | src/components/dashboard/FormManager.tsx:128 | `row.map(cell => ...)` quotes each cell and keeps their number. |
| ContactFormView.EnabledOf | src/components/ContactFormComponent.tsx:19-20 | The enabled fields are exactly the fields that are enabled. |
| ContactFormView.HasAllRequiredIff | src/components/ContactFormComponent.tsx:25-29 | The `every` check holds exactly when each field is optional or has a value that is not blank after trimming. |
| ContactFormView.RequiredCheck | src/components/ContactFormComponent.tsx:19-29 | The check passes exactly when every enabled required field is filled; disabled fields never block. |
| ContactFormView.Record | src/components/ContactFormComponent.tsx:39-45 | The inserted record carries the profile and the name, e-mail, phone and message values, "" when absent. |
| ContactFormView.RecordIgnoresOtherFields | src/components/ContactFormComponent.tsx:39-45 | Values of other fields never reach the record. |
| ContactFormView.HandleSubmit | src/components/ContactFormComponent.tsx:22-59 | A failed check inserts nothing. A successful insert clears the data and shows the confirmation. A failed insert keeps both. |
| ContactFormView.InsertOnlyWhenFilled | src/components/ContactFormComponent.tsx:25-45 | An insert is attempted exactly when every enabled required field is filled. |
| ContactFormView.HandleFieldChange | src/components/ContactFormComponent.tsx:61-63 | Only that field's value changes. |
| ContactFormView.Render | src/components/ContactFormComponent.tsx:65-93 | After a submission, the confirmation is shown. Otherwise nothing is rendered exactly when no field is enabled, and the form shows exactly the enabled fields. |
| ContactFormView.NothingShownIff | src/components/ContactFormComponent.tsx:86-88 | The form disappears exactly when its field list is missing or no field is enabled. |
| ContactFormView.EnabledFields | src/components/ContactFormComponent.tsx:19-20 | Definition of `(profile.contactform?.fields \|\| []).filter(f => f.enabled)`. EnabledOf, Render and NothingShownIff state its properties. |
| ContactFormView.Value | src/components/ContactFormComponent.tsx:27 | Definition of `formData[field.id] \|\| ""`. RequiredCheck and RecordIgnoresOtherFields state its role. |
| ContactFormView.Filled | src/components/ContactFormComponent.tsx:26-28 | Definition of the callback of `every`: optional, or non-blank after `trim()`. HasAllRequiredIff and RequiredCheck state its role. |
| ContactFormView.HasAllRequired | src/components/ContactFormComponent.tsx:25-29 | Definition of `hasAllRequired` as the recursion `every` performs. HasAllRequiredIff, RequiredCheck and InsertOnlyWhenFilled state its properties. |
| AccessKeys.NormalizeIdempotent | src/lib/accessKeys.ts:39 | Normalising a normalised key changes nothing. |
| AccessKeys.Normalize | src/lib/accessKeys.ts:39 | Definition of `accessKey.trim().toUpperCase()`. NormalizeIdempotent, NormalizeUpper and NormalizeTrimmed state its properties. |
| AccessKeys.Lookup | src/lib/accessKeys.ts:41-59 | Definition of the three checks on a stored key in their order. UsableIff, CheckOrder and ExpiryIsStrict state its properties. |
| AccessKeys.CheckKey | src/lib/accessKeys.ts:37-59 | The lookup of the normalised key. CheckKeyNormalized and ValidateAccessKey state its properties. |
| AccessKeys.NormalizeUpper | src/lib/accessKeys.ts:39 | A normalised key has no lower-case ASCII letter. |
| AccessKeys.NormalizeTrimmed | src/lib/accessKeys.ts:39 | A normalised key has no white space at either end. |
| AccessKeys.UsableIff | src/lib/accessKeys.ts:39-59 | A key is usable exactly when its normalised form is stored, not activated and not expired, and then it is that row. |
| AccessKeys.CheckOrder | src/lib/accessKeys.ts:47-57 | A missing key is reported first, then activation (even for an expired key), then expiry. |
| AccessKeys.ExpiryIsStrict | src/lib/accessKeys.ts:55 | A key expiring at this instant, or never, has not expired. |
| AccessKeys.CheckKeyNormalized | src/lib/accessKeys.ts:39 | Surrounding white space and letter case of the typed key never change the verdict. |
| AccessKeys.ValidateAccessKey | src/lib/accessKeys.ts:37-59 | Valid exactly when the key is usable, with its row. Otherwise one of the three messages. |
| AccessKeys.ValidationMessages | src/lib/accessKeys.ts:47-57 | Each message names exactly its own reason. |
| AccessKeys.IsExpired | src/lib/accessKeys.ts:55 | Definition of `expires_at && new Date(expires_at) < new Date()`, with the clock as a parameter. ExpiryIsStrict and CheckOrder state its properties. |
| ActivatePage.KeyMessage | src/app/ativar/page.tsx:45-64 | Only a usable key shows no message. |
| ActivatePage.PageAgreesWithLibrary | src/app/ativar/page.tsx:28-64 | The page refuses a key exactly when `validateAccessKey` does. |
| ActivatePage.PrefilledEmail | src/app/ativar/page.tsx:66-68 | A non-empty e-mail stored with the key replaces the typed one; otherwise the typed one stays. |
| ActivatePage.ActivationRefusalIff | src/app/ativar/page.tsx:85-93 | The passwords pass exactly when the password has six characters or more and is confirmed. A short password is reported before a mismatch. |
| ActivatePage.ActivationRefusal | src/app/ativar/page.tsx:85-93 | Definition of the two password guards, length first. ActivationRefusalIff states its properties. |
| ActivatePage.ProfileName | src/app/ativar/page.tsx:129 | Definition of `email.split("@")[0]`. ProfileNameIsLocalPart states its property. |
| ActivatePage.SignUpErrorMessage | src/app/ativar/page.tsx:110-115 | An "already registered" error gets its own message. Any other error is shown after the fixed prefix. |
| ActivatePage.ProfileNameIsLocalPart | src/app/ativar/page.tsx:129 | The profile name is the part of the e-mail before its first "@". |
| ActivatePage.ValidateThenActivate | src/app/ativar/page.tsx:23-162 | Across both steps, a key is marked activated only if `validateAccessKey` accepted it, and it is marked under its normalised form. |
| ActivatePage.Page.constructor | src/app/ativar/page.tsx:11-20 | The page starts empty, in the validate step. |
| ActivatePage.Page.KeyInput | src/app/ativar/page.tsx:202-208 | The key field holds the upper-cased first 20 characters, and nothing else changes. |
| ActivatePage.Page.EmailInput | src/app/ativar/page.tsx:261-262 | Only the e-mail changes. |
| ActivatePage.Page.PasswordInput | src/app/ativar/page.tsx:278-279 | Only the password changes. |
| ActivatePage.Page.ConfirmPasswordInput | src/app/ativar/page.tsx:303-304 | Only the confirmation changes. |
| ActivatePage.Page.ToggleShowPassword | src/app/ativar/page.tsx:286 | Only the visibility of the password flips. |
| ActivatePage.Page.HandleValidateKey | src/app/ativar/page.tsx:23-78 | The page moves to the activate step exactly when the library accepts the key, and then pre-fills the stored e-mail. Otherwise it shows the reason's message. Loading ends either way. |
| ActivatePage.Page.ShowKeyStatus | src/app/ativar/page.tsx:45-71 | The outcome of a lookup: its message, the step, and the e-mail. |
| ActivatePage.Page.HandleActivateAccount | src/app/ativar/page.tsx:81-162 | Refused passwords show their message and create nothing. A sign-up error or a missing user shows its message. Otherwise the profile row and the key update are written, and the router goes to the dashboard or to the login page. |
| ActivatePage.Page.ApplySignUp | src/app/ativar/page.tsx:110-162 | Acts on the answer of the sign-up call, as described for HandleActivateAccount. |
| ActivatePage.Page.ShowSignUpFailure | src/app/ativar/page.tsx:110-123 | The message is shown and loading ends. |
| ActivatePage.Page.CreateAccount | src/app/ativar/page.tsx:126-162 | The profile row carries the user, e-mail, local part and `user<now>`. The key update marks the normalised key activated at `now` for that user and e-mail. The destination depends on the sign-in. |
| ActivatePage.Page.Back | src/app/ativar/page.tsx:328 | "Back" returns to the validate step and keeps the typed data. |
| RegisterPage.RemoveWhitespace | src/app/auth/register/page.tsx:40 | The result has no white space and is not longer than the input; a text without white space is kept. |
| RegisterPage.LowerCommutes | src/app/auth/register/page.tsx:40 | Lower-casing and removing white space commute. |
| RegisterPage.NormalizedShape | src/app/auth/register/page.tsx:40 | A normalised username has no white space and no upper-case ASCII letter. |
| RegisterPage.NormalizeUsername | src/app/auth/register/page.tsx:40 | Definition of `username.toLowerCase().replace(/\s+/g, "")`. NormalizedShape and NormalizeUsernameIdempotent state its properties. |
| RegisterPage.HandleRegister | src/app/auth/register/page.tsx:23-43 | Definition of the guards and the sign-up request. HandleRegisterCases and RequestContents state its properties. |
| RegisterPage.NormalizeUsernameIdempotent | src/app/auth/register/page.tsx:40 | Normalising twice is normalising once. |
| RegisterPage.HandleRegisterCases | src/app/auth/register/page.tsx:23-43 | A sign-up is requested exactly for a confirmed password of six characters or more. A mismatch is reported first, even for a short password. |
| RegisterPage.RequestContents | src/app/auth/register/page.tsx:35-43 | The request carries the e-mail and password as typed and a normalised username. |
| RegisterPage.ToLowerIdempotent | src/app/auth/register/page.tsx:40 | Lower-casing twice is lower-casing once. |
| ImageSlider.NextPreviousModular | src/components/ImageSlider.tsx:37-43 | On an index in range, the arrows are addition and subtraction of one modulo the number of images. |
| ImageSlider.Next | src/components/ImageSlider.tsx:41-43 | Definition of `goToNext`: back to 0 after the last image. NextPreviousModular, StaysInRange, NextTimesAdd and FullCircle state its properties. |
| ImageSlider.Previous | src/components/ImageSlider.tsx:37-39 | Definition of `goToPrevious`: to the last image before the first. NextPreviousModular, StaysInRange and NextPreviousInverse state its properties. |
| ImageSlider.GoToSlide | src/components/ImageSlider.tsx:45-47 | Definition of `goToSlide`: the index becomes the one given. No property is stated (see "Left out"). |
| ImageSlider.StaysInRange | src/components/ImageSlider.tsx:37-43 | Both arrows keep the index in range. |
| ImageSlider.NextPreviousInverse | src/components/ImageSlider.tsx:37-43 | Each arrow undoes the other. |
| ImageSlider.NextTimesAdd | src/components/ImageSlider.tsx:41-43 | Pressing `a` then `b` times is pressing `a + b` times. |
| ImageSlider.NextTimesCount | src/components/ImageSlider.tsx:41-43 | Before the last image, `k` presses move `k` images on. |
| ImageSlider.FullCircle | src/components/ImageSlider.tsx:41-43 | As many presses (or auto-play ticks) as there are images come back to the start. |
| ImageSlider.Render | src/components/ImageSlider.tsx:21-67 | No images render nothing, and one renders without a slider. More than one render the current image. |
| ImageSlider.CounterShape | src/components/ImageSlider.tsx:118 | The counter reads "position / total", with the position counted from one. |
| ImageSlider.SlideAlt | src/components/ImageSlider.tsx:67 | Definition of `` `${alt} - ${currentIndex + 1}` ``. SlideAltShape states its shape. |
| ImageSlider.SlideAltShape | src/components/ImageSlider.tsx:67 | A slide's alternative text is the given text, " - ", and a numeral whose value is the position counted from one. |
| ImageSlider.Counter | src/components/ImageSlider.tsx:118 | Definition of `{currentIndex + 1} / {images.length}`. CounterShape states its shape. |
| DigitalCard.MatchHex | src/components/dashboard/DigitalCard.tsx:13 | A match yields three byte values. |
| DigitalCard.MatchHexIff | src/components/dashboard/DigitalCard.tsx:13 | The expression matches exactly six hex digits, optionally after one "#". |
| DigitalCard.ShortFormRejected | src/components/dashboard/DigitalCard.tsx:13 | The short form "#fff" does not match. |
| DigitalCard.MatchHexNotation | src/components/dashboard/DigitalCard.tsx:13-15 | Reading the "#rrggbb" notation of a colour gives that colour back. |
| DigitalCard.MatchHexCaseInsensitive | src/components/dashboard/DigitalCard.tsx:13 | Under the `i` flag, upper-case digits read the same as lower-case ones. |
| DigitalCard.Byte2 | src/components/dashboard/DigitalCard.tsx:15 | Two hex digits whose `parseInt(…, 16)` is the byte. |
| DigitalCard.HexToRgba | src/components/dashboard/DigitalCard.tsx:11-16 | An "rgb…" text or an unmatched one comes back unchanged. A matched one becomes `rgba(r, g, b, alpha)` of its bytes. |
| DigitalCard.HexToRgbaNotation | src/components/dashboard/DigitalCard.tsx:11-16 | A "#rrggbb" colour is printed as its three bytes and the alpha. |
| DigitalCard.OptionalLine | src/components/dashboard/DigitalCard.tsx:56-59 | An optional line is empty exactly when its field is missing or empty. |
| DigitalCard.VCardLines | src/components/dashboard/DigitalCard.tsx:53-60 | The template has eight lines. |
| DigitalCard.VCard | src/components/dashboard/DigitalCard.tsx:53-60 | Definition of the vCard text: its lines joined by line feeds. VCardSplit and VCardLinesShape state its properties. |
| DigitalCard.VCardSplit | src/components/dashboard/DigitalCard.tsx:53-60 | When no field contains a line feed, splitting the vCard at line feeds gives back exactly its eight lines. |
| DigitalCard.VCardLinesShape | src/components/dashboard/DigitalCard.tsx:53-60 | BEGIN, VERSION, FN with the name, then EMAIL, TEL, URL and NOTE lines present exactly for non-empty fields, values unescaped, then END. |
| DigitalCard.PixEnabled | src/components/dashboard/DigitalCard.tsx:84 | Pix is offered exactly when it is enabled and the key is non-empty. |
| DigitalCard.RgbaText | src/components/dashboard/DigitalCard.tsx:15 | Definition of `` `rgba(${r}, ${g}, ${b}, ${alpha})` ``. HexToRgba and HexToRgbaNotation state what it prints. |
| DigitalCard.Truthy | src/components/dashboard/DigitalCard.tsx:56-59 | Definition of the truthiness of an optional text: present and non-empty. OptionalLine, VCardLinesShape and PixEnabled state its role. |
| Common.DigitsOnly | src/components/PixModal.tsx:35 | `replace(/\D/g, "")` keeps only digits, is never longer, and keeps an all-digit text. |
| Common.DigitsOnlyAppend | src/components/PixModal.tsx:35 | Removing non-digits distributes over concatenation. |
| Common.DecStr | src/components/PixModal.tsx:74-76 | `toString()` of a number is a non-empty numeral with that value. |
| Common.PadStart | src/components/PixModal.tsx:74-76 | `padStart` leaves a long text alone and left-fills a short one to the width. |
| Common.Pad2RoundTrip | src/components/PixModal.tsx:74-76 | A length below 100 is written as two digits that read back as the length. |
| Common.Pad2Long | src/components/PixModal.tsx:74-76 | A length of 100 or more is written in full, with no truncation. |
| Common.Take | src/components/PixModal.tsx:94 | `slice(0, n)` is the prefix of length min(n, length). |
| Common.SplitJoin | src/components/dashboard/FormManager.tsx:126-129 | Splitting at a separator that no part contains gives the joined parts back. |
| Common.SplitAfterSeparator | src/app/ativar/page.tsx:129 | Split at its first separator, a text yields the part before it and the split of the rest. |
| Common.Trim | src/lib/accessKeys.ts:39 | `trim()` gives the slice of the text between its leading and trailing white space, which neither begins nor ends in white space, and is empty exactly for an all-white-space text. |
| Common.TrimIdempotent | src/lib/accessKeys.ts:39 | Trimming twice is trimming once. |
| Common.ToUpper | src/lib/accessKeys.ts:39 | `toUpperCase()` maps each character. |
| Common.ToUpperIdempotent | src/lib/accessKeys.ts:39 | Upper-casing twice is upper-casing once. |
| Common.ReplaceFirstAt | src/components/PixModal.tsx:38 | `replace(".", ",")` replaces only the first point. |
| Common.IsWhitespace | src/lib/accessKeys.ts:39 | Definition of the JavaScript white-space set: the class `\s` of a regular expression, which is also what `trim()` removes (WhiteSpace and LineTerminator of ECMA-262). Trim and RegisterPage.RemoveWhitespace state what follows from it. |
| Common.Pad2 | src/components/PixModal.tsx:74-76 | Definition of `length.toString().padStart(2, "0")`. Pad2RoundTrip and Pad2Long state its properties. |
| Common.Concat | src/components/PixModal.tsx:104 | Definition of `join("")`. ConcatAppend and PixPayload.EmitAppend state its properties. |
| Common.ConcatAppend | src/components/PixModal.tsx:104 | Joining a concatenation of lists with "" concatenates the two joined texts. |
| Common.Join | src/components/dashboard/FormManager.tsx:126-129 | Definition of `join(sep)`. SplitJoin and FormManager.CsvLines state its properties. |
| Common.Split | src/app/ativar/page.tsx:129 | `split(c)` for a one-character separator is never empty, and "" gives [""]. SplitJoin, SplitAfterSeparator, SplitNoSeparator and ActivatePage.ProfileNameIsLocalPart state the rest. |
| Common.SplitNoSeparator | src/app/ativar/page.tsx:129 | A text without the separator splits into itself alone. |
| Common.ToLower | src/app/auth/register/page.tsx:40 | `toLowerCase()` maps each character and keeps the length (ASCII, as admitted). RegisterPage.ToLowerIdempotent, LowerCommutes and NormalizedShape state the rest. |
| Common.ReplaceFirst | src/components/PixModal.tsx:38 | `replace(".", ",")` with a string pattern keeps the length and leaves a text without the point unchanged. ReplaceFirstAt states that only the first point is replaced. |
| Common.StartsWith | src/components/dashboard/DigitalCard.tsx:12 | Definition of `startsWith(p)`. DigitalCard.HexToRgba and HexToRgbaNotation state what it decides. |
| Common.Contains | src/app/ativar/page.tsx:111 | Definition of `includes(p)`: p occurs at some position. ActivatePage.SignUpErrorMessage states what it decides. |

## Left out

- I/O with the Supabase back end is not modelled; lookups and answers enter as parameters, and error branches only show messages. This covers:
  - reading and updating profile rows, and inserting submissions and profiles;
  - the `catch` branches that only alert;
  - `onUpdate` and `alert`/`confirm`/`prompt`. The answer of `confirm` or `prompt` is a parameter.
- The QR code library is a parameter (`Some(url)` or `None` when it throws). The image it draws is not modelled.
- Clipboard copies, the "copied" flag with its timer, the WhatsApp share link, and the file download of the CSV are browser side effects.
- Floating point: amounts are integer cents, never floats. The amount field has no `maxLength` (PixModal.tsx:232), and longer inputs are rounded by the source but not by the model. From 16 digits of cents, `n / 100` can be off by half a cent or more. From 2^53 cents, `parseFloat` already rounds the digits. From 10^21 reais, `toFixed(2)` writes exponent notation, so field 54 no longer holds the amount's digits. `alpha` in `hexToRgba` is the text JavaScript prints for the number.
- Stored catalogue prices are rendered as `formatCurrency((item.price * 100).toString())` (CatalogManager.tsx:150 and 323). That is float arithmetic: 19.99 * 100 is 1998.9999999999998 in IEEE-754, so the digits the formatter reads are not the amount's. Reopening such an item shows a far larger price, and saving it without retyping stores that larger price. The model cannot show this, because it passes the rendered price text to `OpenModal` as a parameter and keeps prices as integer cents. `ReopenSaved` therefore says nothing about the price text.
- The catalogue's `formatCurrency` uses `toLocaleString("pt-BR")` (CatalogManager.tsx:53-61) and is not modelled, and neither is `handlePriceChange` with it, nor the price text `openModal` builds with it (a parameter of `OpenModal`). `ParseRenderedPrice` states what holds of any rendering whose digits are the amount's: it parses back to that amount, thousands grouping included. The stored-price rendering below does not always have those digits.
- Text outside the Basic Multilingual Plane is not modelled. A Dafny `char` is a Unicode scalar value, so a character such as an emoji is one `char` where JavaScript counts two UTF-16 code units, and lone surrogates cannot be written at all. For such text the source's `.length` prefixes, `slice` cuts, `maxLength` cut and `charCodeAt` CRC steps differ from the model's.
- The CSV date cell is a parameter `localDate`, in place of `toLocaleString("pt-BR")`.
- `formatDate` of the submissions list is not modelled.
- Case mapping is ASCII only. Non-ASCII letters keep their case in `ToUpper`/`ToLower`.
- The dnd-kit sensors and collision detection are left out, as the library computes `active` and `over`.
- `Date.now()` and `new Date()` are parameters: the fresh product id, the username suffix and the activation time.
- Not modelled: how the initial form is built from the profile in PixManager.tsx:33-47 (the constructor takes the built form), the catalogue load in CatalogManager.tsx:42-51 (its `hidden ?? false`), and the image upload in CatalogManager.tsx:72-106. They are storage I/O.
- `loadSubmissions` and `deleteSubmission` (FormManager.tsx:77-108) are storage queries with no logic of their own.
- The editors and inputs of the contact-form configuration modal, and the `loading`/`submitting` flags of the dashboard editors, are not modelled.
- Browser-enforced attributes (`required`, `minLength`) are not modelled. The access key's `maxLength={20}` is modelled.
- After the sign-up request, the registration page's success and error display (register/page.tsx:45-53) is not modelled.
- An `expires_at` that is not a date makes `new Date(...)` invalid, and its comparison false. It is modelled as `None`, never expired, which has the same effect.
- CatalogManager.Catalog.HandleDrop: requires the dragged index to be in range. The source would insert `undefined` for an index past the end.
- ImageSlider.Render: requires the index in range for two or more images. The source would render an image without a source.
- `goToSlide` (ImageSlider.tsx:45-47) is only called from markup that is commented out. It is modelled and has no property.
- `handleAmountChange` (PixModal.tsx:47-52) is never called: the amount input uses its own inline handler (PixModal.tsx:234-241), which `PixModal.Modal.AmountInput` models. `PixModal.Modal.HandleAmountChange` models the unused function as written; unlike the inline handler, it leaves the error message in place.
- The React effect that re-runs `generateQRCode` after `formData` changes is folded into `PixManager.Manager.HandleChange` and, for the loaded form, into its constructor.
