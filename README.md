# WorldCovers: a verified model of the catalogue front end's logic

WorldCovers is a census of postmarks and postal covers. The site is a
React front end over a Supabase database and a Django API. Its pages hold
small pieces of logic, and this project models them in Dafny and proves
what they promise. The pieces are:

- the catalogue search: ten field filters and a nine-per-page pager;
- the contributor's "My submissions" dashboard filter and its status badges;
- the date-range text written by the contribute form and read back by the
  entry detail view;
- the contribute form, the image-submission dialog, the login-request
  form and the sign-in form, as state machines with their validators;
- the reference-data services. Each reads an API base URL from the
  environment and normalises it, reads a paginated `results` response and
  renames fields. For colours, postmark shapes and postal facilities, an
  unconfigured service instead builds its options from the two database
  tables, de-duplicated, sorted and renumbered;
- the filter-options hook: the primary source first, the fallback only
  when the primary fails;
- the catalogue sync that inserts an approved submission unless it is
  already there;
- the Django view that serves the built single-page app and sanitises the
  requested path.

Every module sits in its own file and imports the helpers it needs:

- `wrappers.dfy` holds Option and Result.
- `js_strings.dfy` holds the JavaScript string operations: `trim`,
  `toLowerCase`, `includes`, `indexOf`, `split`, `pop`, `parseInt`, and
  the `/\/+$/` strip.
- `collections.dfy` holds `filter`, insertion-ordered `Set`, and a stable
  sort by a comparator.
- `api_client.dfy` holds what all services share.
- `store_values.dfy` holds the de-duplication loop that colours and
  shapes share.

The form follows the source:

- **Pure code** becomes functions and lemmas: the filters, parsers,
  mappers and schemas.
- **Component state** becomes a class with fields, and methods with
  `modifies` clauses: the search page, the dashboard, the contribute form,
  the two dialogs, the sign-in page, the filter-options hook and the
  catalogue table.
- **The store fallbacks' `for` loops** become methods with loop
  invariants. Each is proved against a specification function, and the
  properties are proved about that function.

The network, the database, storage, the clock, random identifiers, zod's
e-mail grammar, `Date` parsing, `localeCompare` and the filesystem are
parameters of the model.

Where the description of the system and the code disagree, the model
follows the code:

- **Begin year.** The search's "begin year" bound compares the record's
  *begin* year (Search.tsx:263).
- **Colour filter.** The colour filter lower-cases only the record's
  colour, not the filter value (Search.tsx:270).
- **"Invalid date" branch.** The contribute form's "Invalid date" branch
  can never be taken (`Contribute.RequiredImpliesDateRange`).

## Model

| member | source | states |
|---|---|---|
| JsStrings.IsSpace | frontend/src/pages/Search.tsx:244 | definition: the code points `trim` removes and `\s` matches (WhiteSpace and LineTerminator) |
| JsStrings.Blank | frontend/src/pages/Contribute.tsx:185-191 | definition: every character is white space, the strings `trim()` empties |
| JsStrings.Trim | frontend/src/pages/Search.tsx:244 | definition: `trimStart` then `trimEnd`; its meaning is carried by TrimStart, TrimEnd, TrimEdges and TrimEmptyIffBlank |
| JsStrings.TrimStart | frontend/src/pages/Search.tsx:244 | the result is a suffix of the input, starts with a non-space, and what was cut off is all white space |
| JsStrings.TrimEnd | frontend/src/pages/Search.tsx:244 | the result is a prefix of the input, ends with a non-space, and what was cut off is all white space |
| JsStrings.TrimEdges | frontend/src/pages/Search.tsx:244 | a non-empty trimmed string starts and ends with a non-space |
| JsStrings.TrimNoop | frontend/src/pages/Search.tsx:244 | trimming a string that has no white space at either end changes nothing |
| JsStrings.TrimIdempotent | frontend/src/pages/Search.tsx:244 | trimming twice is trimming once |
| JsStrings.TrimEmptyIffBlank | frontend/src/pages/Contribute.tsx:185-191 | `s.trim()` is falsy exactly when `s` is all white space |
| JsStrings.TrimNonBlankNonEmpty | frontend/src/pages/Contribute.tsx:185-191 | a string with any non-space character trims to a non-empty string |
| JsStrings.ToLower | frontend/src/pages/Search.tsx:245 | lower-casing keeps the length and maps each character on its own |
| JsStrings.LowerCharSpace | frontend/src/hooks/useFilterOptions.ts:13 | lower-casing neither creates nor removes white space |
| JsStrings.TrimLowerCommute | frontend/src/hooks/useFilterOptions.ts:13 | `toLowerCase().trim()` equals `trim().toLowerCase()` |
| JsStrings.ToLowerIdempotent | frontend/src/hooks/useFilterOptions.ts:13 | lower-casing twice is lower-casing once |
| JsStrings.StartsWith | woco/views.py:28 | definition: the first characters of the string are the prefix, as `str.startswith` tests |
| JsStrings.EndsWith | frontend/src/services/colors.ts:52 | definition: the last characters of the string are the suffix, as `endsWith` tests |
| JsStrings.Includes | frontend/src/pages/Search.tsx:247 | definition: the query is a prefix of some suffix of the string; IncludesAt and IncludesChar state its meaning by position |
| JsStrings.IncludesAt | frontend/src/pages/Search.tsx:247 | a string includes every one of its substrings |
| JsStrings.IncludesChar | frontend/src/pages/Search.tsx:247 | every character of an included string occurs in the including one |
| JsStrings.IncludesEmpty | frontend/src/pages/Search.tsx:247 | every string includes "" |
| JsStrings.IndexOf | frontend/src/components/CatalogEntryDetailView.tsx:35 | -1 (None) exactly when the character is absent; otherwise the position of its first occurrence |
| JsStrings.IndexOfFirst | frontend/src/components/CatalogEntryDetailView.tsx:35 | the first occurrence is what `indexOf` returns |
| JsStrings.IndexOfAfterPrefix | frontend/src/components/CatalogEntryDetailView.tsx:35 | in `a + c + b` with `c` not in `a`, `indexOf(c)` is `|a|` |
| JsStrings.Split | frontend/src/pages/Search.tsx:260 | `split` yields at least one part, and the whole string when the separator is absent |
| JsStrings.LastPiece | frontend/src/pages/Contribute.tsx:215 | `split(c).pop()` is a separator-free suffix of the input, preceded by the separator unless it is the whole input |
| JsStrings.LastPieceAfterSeparator | frontend/src/pages/Contribute.tsx:215 | the last piece of `a + c + b` with `c` not in `b` is `b` |
| JsStrings.StripTrailing | frontend/src/services/colors.ts:51 | `replace(/\/+$/, "")` removes exactly the trailing run of slashes |
| JsStrings.IsDigit | frontend/src/pages/Search.tsx:260 | definition: an ASCII decimal digit, what `parseInt(s, 10)` reads |
| JsStrings.AllDigits | frontend/src/pages/Search.tsx:260 | definition: every character is a decimal digit |
| JsStrings.DigitsValue | frontend/src/pages/Search.tsx:260 | definition: the base-10 value of a digit string, read left to right |
| JsStrings.UnsignedPart | frontend/src/pages/Search.tsx:260 | definition: the input after leading white space and one optional sign, where `parseInt` starts reading digits |
| JsStrings.DigitPrefix | frontend/src/pages/Search.tsx:260 | the longest prefix of decimal digits |
| JsStrings.ParseInt | frontend/src/pages/Search.tsx:260 | `parseInt(s, 10)` is NaN (None) exactly when no digits follow the leading white space and sign; a value is an exact integer, not rounded to a double (see Left out) |
| JsStrings.ParseDigits | frontend/src/pages/Search.tsx:260 | `parseInt` of a digit string is its exact decimal value; JavaScript agrees only up to 2^53 (see Left out) |
| JsStrings.DigitPrefixOfDigits | frontend/src/pages/Search.tsx:260 | a digit string is its own digit prefix |
| JsStrings.DigitPrefixStops | frontend/src/pages/Search.tsx:260 | the digit prefix stops at the first non-digit |
| JsStrings.NoDigitsNaN | frontend/src/pages/Search.tsx:260 | a string without digits parses to NaN |
| Collections.Filter | frontend/src/pages/Search.tsx:242 | `Array.filter` keeps only accepted elements of the input, and no more of them than there were |
| Collections.FilterKeepsAccepted | frontend/src/pages/Search.tsx:242 | every accepted element of the input is in the output |
| Collections.FilterConcat | frontend/src/pages/Search.tsx:242 | filtering distributes over concatenation, so order is kept |
| Collections.FilterNarrowing | frontend/src/pages/Search.tsx:242 | filtering by a looser test first and then by a stricter one is filtering by the stricter one |
| Collections.NoDuplicates | frontend/src/pages/Dashboard.tsx:104 | definition: no value occurs twice, what a `Set` guarantees |
| Collections.DistinctInOrder | frontend/src/pages/Dashboard.tsx:104 | `Array.from(new Set(xs))` has no duplicates and holds exactly the elements of `xs` |
| Collections.DistinctInFirstOccurrenceOrder | frontend/src/pages/Dashboard.tsx:104 | the set's elements come in the order of their first occurrence |
| Collections.DistinctSnoc | frontend/src/services/colors.ts:72 | `set.add(x)` appends `x` exactly when it is new |
| Collections.SortBy | frontend/src/services/colors.ts:79 | `sort` returns a permutation of its input; SortByStable states that it is stable |
| Collections.TotalPreorder | frontend/src/services/colors.ts:79 | definition: the comparator is total and transitive, what a `localeCompare` collation gives |
| Collections.SortedBy | frontend/src/services/colors.ts:79 | definition: every earlier element sorts no later than every later one |
| Collections.SortBySorted | frontend/src/services/colors.ts:79 | with a total preorder as comparator, the output is sorted |
| Collections.SortByMembers | frontend/src/services/colors.ts:79 | sorting keeps exactly the same members |
| Collections.SortByNoDuplicates | frontend/src/services/colors.ts:79 | sorting a duplicate-free list keeps it duplicate-free |
| Collections.SortByStable | frontend/src/services/colors.ts:79 | the sort is stable: for every key, the elements the comparator ties with it come out in their input order |
| Zod.MinCheck | frontend/src/pages/Auth.tsx:23 | `.min(n, m)` reports one issue with message `m` exactly when the string is shorter than `n` |
| Zod.MaxCheck | frontend/src/pages/Auth.tsx:24 | `.max(n, m)` reports one issue with message `m` exactly when the string is longer than `n` |
| Zod.EmailCheck | frontend/src/pages/Auth.tsx:19 | `.email(m)` reports one issue with message `m` exactly when the value is not an address |
| ApiClient.WellFormedSuffix | frontend/src/services/colors.ts:52-53 | definition: the service suffixes ("/api/colors" and the others) are non-empty, have no white space at either end and do not end in a slash |
| ApiClient.ApiUrl | frontend/src/services/colors.ts:48-54 | the URL is null exactly when the variable is unset or blank; otherwise it ends with the service suffix |
| ApiClient.ApiUrlShape | frontend/src/services/colors.ts:48-54 | a normalised URL has no white space at either end and no trailing slash |
| ApiClient.ApiUrlIdempotent | frontend/src/services/colors.ts:48-54 | normalising a normalised URL changes nothing |
| ApiClient.RequestUrl | frontend/src/services/colors.ts:90 | the request URL ends in "/" and is the API URL itself when that already does |
| ApiClient.RequestUrlOneSlash | frontend/src/services/colors.ts:90 | the request goes to the normalised URL plus exactly one slash |
| ApiClient.MapAll | frontend/src/services/colors.ts:99 | `results.map(f)` has one mapped element per result, in order |
| ApiClient.ReadResults | frontend/src/services/colors.ts:91-99 | a rejected `fetch` or `res.json()` reaches the caller with its message; a non-ok status throws with status and text; a body without a `results` array throws; otherwise one mapped element per result, in order |
| ApiClient.GetList | frontend/src/services/dateFormats.ts:52-70 | unconfigured: []; configured: exactly the outcomes of reading the response to the request URL, a rejection included |
| ApiClient.UnconfiguredMakesNoRequest | frontend/src/services/dateFormats.ts:53-56 | when unconfigured, the result does not depend on the fetcher: no request is made |
| DateFormats.FromItem | frontend/src/services/dateFormats.ts:32-38 | the field correspondence of the API mapper: which result field each record field is taken from, and which result fields are dropped |
| DateFormats.ToRecord | frontend/src/services/dateFormats.ts:32-38 | definition of the mapper the service applies to every result; its output satisfies `FromItem`, which the service's contract states |
| DateFormats.GetDateFormats | frontend/src/services/dateFormats.ts:52-70 | [] when unconfigured; HTTP error and missing-results throws; otherwise one option per result, in order, with id, name and description from dateFormatId, formatName and formatDescription |
| DateFormats.DateFormatsUrl | frontend/src/services/dateFormats.ts:40-46 | null exactly when unset or blank; idempotent; the request adds one slash |
| FramingStyles.FromItem | frontend/src/services/framingStyles.ts:32-38 | the field correspondence of the API mapper: which result field each record field is taken from, and which result fields are dropped |
| FramingStyles.ToRecord | frontend/src/services/framingStyles.ts:32-38 | definition of the mapper the service applies to every result; its output satisfies `FromItem`, which the service's contract states |
| FramingStyles.GetFramingStyles | frontend/src/services/framingStyles.ts:52-70 | as for date formats, with framingStyleId, framingStyleName and framingDescription |
| FramingStyles.FramingStylesUrl | frontend/src/services/framingStyles.ts:40-46 | null exactly when unset or blank; idempotent; the request adds one slash |
| LetteringStyles.FromItem | frontend/src/services/letteringStyles.ts:32-38 | the field correspondence of the API mapper: which result field each record field is taken from, and which result fields are dropped |
| LetteringStyles.ToRecord | frontend/src/services/letteringStyles.ts:32-38 | definition of the mapper the service applies to every result; its output satisfies `FromItem`, which the service's contract states |
| LetteringStyles.GetLetteringStyles | frontend/src/services/letteringStyles.ts:52-70 | as for date formats, with letteringStyleId, letteringStyleName and letteringDescription |
| LetteringStyles.LetteringStylesUrl | frontend/src/services/letteringStyles.ts:40-46 | null exactly when unset or blank; idempotent; the request adds one slash |
| Postcovers.FromItem | frontend/src/services/postcovers.ts:32-40 | the field correspondence of the API mapper: which result field each record field is taken from, and which result fields are dropped |
| Postcovers.ToRecord | frontend/src/services/postcovers.ts:32-40 | definition of the mapper the service applies to every result; its output satisfies `FromItem`, which the service's contract states |
| Postcovers.GetPostcovers | frontend/src/services/postcovers.ts:54-74 | [] when unconfigured; the two throws; otherwise one record per result, in order, with id = postcoverId and the other fields copied |
| Postcovers.PostcoversUrl | frontend/src/services/postcovers.ts:42-48 | null exactly when unset or blank; idempotent; the request adds one slash |
| Postmarks.FromItem | frontend/src/services/postmarks.ts:40-52 | the field correspondence of the API mapper: which result field each record field is taken from, and which result fields are dropped |
| Postmarks.ToRecord | frontend/src/services/postmarks.ts:40-52 | definition of the mapper the service applies to every result; its output satisfies `FromItem`, which the service's contract states |
| Postmarks.GetPostmarks | frontend/src/services/postmarks.ts:66-84 | [] when unconfigured; the two throws; otherwise one record per result, in order, with id = postmarkId and responsibleGroups [] when missing |
| Postmarks.PostmarksUrl | frontend/src/services/postmarks.ts:54-60 | null exactly when unset or blank; idempotent; the request adds one slash |
| PostmarkValuations.FromItem | frontend/src/services/postmarkValuations.ts:41-51 | the field correspondence of the API mapper: which result field each record field is taken from, and which result fields are dropped |
| PostmarkValuations.ToRecord | frontend/src/services/postmarkValuations.ts:41-51 | definition of the mapper the service applies to every result; its output satisfies `FromItem`, which the service's contract states |
| PostmarkValuations.GetPostmarkValuations | frontend/src/services/postmarkValuations.ts:65-89 | [] when unconfigured; the two throws; otherwise one record per result, in order, with id = postmarkValuationId and estimatedValue kept as text |
| PostmarkValuations.PostmarkValuationsUrl | frontend/src/services/postmarkValuations.ts:53-59 | null exactly when unset or blank; idempotent; the request adds one slash |
| PublicationReferences.FromItem | frontend/src/services/publicationReferences.ts:34-45 | the field correspondence of the API mapper: which result field each record field is taken from, and which result fields are dropped |
| PublicationReferences.ToRecord | frontend/src/services/publicationReferences.ts:34-45 | definition of the mapper the service applies to every result; its output satisfies `FromItem`, which the service's contract states |
| PublicationReferences.GetPublicationReferences | frontend/src/services/publicationReferences.ts:59-83 | [] when unconfigured; the two throws; otherwise one record per result, in order, with id = postmarkPublicationReferenceId and the other fields copied |
| PublicationReferences.PublicationReferencesUrl | frontend/src/services/publicationReferences.ts:47-53 | null exactly when unset or blank; idempotent; the request adds one slash |
| Publications.FromItem | frontend/src/services/publications.ts:53-66 | the field correspondence of the API mapper: which result field each record field is taken from, and which result fields are dropped |
| Publications.ToRecord | frontend/src/services/publications.ts:53-66 | definition of the mapper the service applies to every result; its output satisfies `FromItem`, which the service's contract states |
| Publications.GetPublications | frontend/src/services/publications.ts:80-100 | [] when unconfigured; the two throws; otherwise one record per result, in order, with id = postmarkPublicationId and the user objects dropped |
| Publications.PublicationsUrl | frontend/src/services/publications.ts:68-74 | null exactly when unset or blank; idempotent; the request adds one slash |
| PostcoverImages.FromItem | frontend/src/services/postcoverImages.ts:46-63 | the field correspondence of the API mapper: which result field each record field is taken from, and which result fields are dropped |
| PostcoverImages.ToRecord | frontend/src/services/postcoverImages.ts:46-63 | definition of the mapper the service applies to every result; its output satisfies `FromItem`, which the service's contract states |
| PostcoverImages.GetPostcoverImages | frontend/src/services/postcoverImages.ts:77-99 | [] when unconfigured; the two throws; otherwise one record per result, in order, with id = postcoverImageId and the other fields copied |
| PostcoverImages.PostcoverImagesUrl | frontend/src/services/postcoverImages.ts:65-71 | null exactly when unset or blank; idempotent; the request adds one slash |
| PostmarkImages.FromItem | frontend/src/services/postmarkImages.ts:54-75 | the field correspondence of the API mapper: which result field each record field is taken from, and which result fields are dropped |
| PostmarkImages.ToRecord | frontend/src/services/postmarkImages.ts:54-75 | definition of the mapper the service applies to every result; its output satisfies `FromItem`, which the service's contract states |
| PostmarkImages.GetPostmarkImages | frontend/src/services/postmarkImages.ts:89-111 | [] when unconfigured; the two throws; otherwise one record per result, in order, with id = postmarkImageId and the fifteen other fields copied |
| PostmarkImages.PostmarkImagesUrl | frontend/src/services/postmarkImages.ts:77-83 | null exactly when unset or blank; idempotent; the request adds one slash |
| PostalFacilityIdentities.FromItem | frontend/src/services/postalFacilityIdentities.ts:58-74 | the field correspondence of the API mapper: which result field each record field is taken from, and which result fields are dropped |
| PostalFacilityIdentities.ToRecord | frontend/src/services/postalFacilityIdentities.ts:58-74 | definition of the mapper the service applies to every result; its output satisfies `FromItem`, which the service's contract states |
| PostalFacilityIdentities.GetPostalFacilityIdentities | frontend/src/services/postalFacilityIdentities.ts:88-112 | [] when unconfigured; the two throws; otherwise one record per result, in order, with id = postalFacilityIdentityId and the ten copied fields |
| PostalFacilityIdentities.PostalFacilityIdentitiesUrl | frontend/src/services/postalFacilityIdentities.ts:76-82 | null exactly when unset or blank; idempotent; the request adds one slash |
| StoreValues.Added | frontend/src/services/colors.ts:72 | a row adds a value exactly when it is non-null and not blank, and what it adds is trimmed |
| StoreValues.AddedSeq | frontend/src/services/colors.ts:72 | a row contributes at most one value, the one `Added` gives |
| StoreValues.PresentValues | frontend/src/services/colors.ts:71-76 | the values the rows offer, at most one per row, all trimmed |
| StoreValues.PresentValuesMembers | frontend/src/services/colors.ts:71-76 | a value is offered exactly when some row holds it |
| StoreValues.AddValue | frontend/src/services/colors.ts:72 | one `colors.add`: the set becomes the distinct values of the rows seen so far plus this row |
| StoreValues.AddValues | frontend/src/services/colors.ts:71-73 | one `for` loop: the set becomes the distinct values of all rows so far, in first-occurrence order |
| StoreValues.CollectDistinct | frontend/src/services/colors.ts:61-76 | both loops: the distinct present values of the catalogue rows followed by the submission rows |
| StoreValues.StoreNamesSpec | frontend/src/services/colors.ts:60-80 | the names are sorted by the comparator, distinct, trimmed, and are exactly the values some row of either table holds |
| StoreValues.SortedNamesTrimmed | frontend/src/services/colors.ts:78-79 | every sorted name is trimmed |
| StoreValues.DistinctMembers | frontend/src/services/colors.ts:61-76 | a value is in the set exactly when a catalogue row or a submission row holds it |
| StoreValues.Present | frontend/src/services/colors.ts:72 | definition: `row?.color && String(row.color).trim()` is truthy: the value is not null and not blank |
| StoreValues.Trimmed | frontend/src/services/colors.ts:72 | definition: non-empty with no white space at either end, what a non-blank trimmed value is |
| StoreValues.StoreNames | frontend/src/services/colors.ts:78-79 | definition: the distinct present values of both tables, catalog rows first, sorted by the comparator; StoreNamesSpec states what it holds |
| Colors.FromItem | frontend/src/services/colors.ts:35-41 | the field correspondence of the API mapper: which result field each record field is taken from, and which result fields are dropped |
| Colors.ToOption | frontend/src/services/colors.ts:35-41 | definition of the mapper the service applies to every result; its output satisfies `FromItem`, which the service's contract states |
| Colors.IndexColors | frontend/src/services/colors.ts:80 | one option per name, id = position, value "" |
| Colors.StoreColors | frontend/src/services/colors.ts:60-81 | definition: the store names numbered by IndexColors; StoreColorsSpec states what it holds |
| Colors.StoreColorsSpec | frontend/src/services/colors.ts:60-81 | the store options are numbered 0..n-1 in comparator order, have value "", distinct trimmed names, and name exactly the colours some row holds ("Red" and "red" both survive) |
| Colors.ColorsFromStore | frontend/src/services/colors.ts:60-81 | the two loops followed by sort and map yield the store options |
| Colors.GetColors | frontend/src/services/colors.ts:87-103 | unconfigured: the store options; configured: the throws or one option per result with colorId, colorName and colorValue |
| Colors.ColorsUrl | frontend/src/services/colors.ts:48-54 | null exactly when unset or blank; idempotent; the request adds one slash |
| PostmarkShapes.FromItem | frontend/src/services/postmarkShapes.ts:35-41 | the field correspondence of the API mapper: which result field each record field is taken from, and which result fields are dropped |
| PostmarkShapes.ToOption | frontend/src/services/postmarkShapes.ts:35-41 | definition of the mapper the service applies to every result; its output satisfies `FromItem`, which the service's contract states |
| PostmarkShapes.IndexShapes | frontend/src/services/postmarkShapes.ts:75 | one option per name, id = position, description "" |
| PostmarkShapes.StoreShapes | frontend/src/services/postmarkShapes.ts:55-76 | definition: the store shape names numbered by IndexShapes; StoreShapesSpec states what it holds |
| PostmarkShapes.StoreShapesSpec | frontend/src/services/postmarkShapes.ts:55-76 | the store options are numbered 0..n-1 in comparator order, have description "", distinct trimmed names, and name exactly the types some row holds |
| PostmarkShapes.ShapesFromStore | frontend/src/services/postmarkShapes.ts:55-76 | the two loops followed by sort and map yield the store options |
| PostmarkShapes.GetPostmarkShapes | frontend/src/services/postmarkShapes.ts:82-98 | unconfigured: the store options; configured: the throws or one option per result with postmarkShapeId, shapeName and shapeDescription |
| PostmarkShapes.PostmarkShapesUrl | frontend/src/services/postmarkShapes.ts:43-49 | null exactly when unset or blank; idempotent; the request adds one slash |
| PostalFacilities.FromItem | frontend/src/services/postalFacilities.ts:37-46 | the field correspondence of the API mapper: which result field each record field is taken from, and which result fields are dropped |
| PostalFacilities.ToOption | frontend/src/services/postalFacilities.ts:37-46 | definition of the mapper the service applies to every result; its output satisfies `FromItem`, which the service's contract states |
| PostalFacilities.Entry | frontend/src/services/postalFacilities.ts:64-66 | definition: a row with a non-null, non-blank town and state gives its trimmed place; any other row gives nothing |
| PostalFacilities.Key | frontend/src/services/postalFacilities.ts:65 | definition: the lower-cased trimmed town and state joined by "\|"; KeyInjective and KeyCollision state when two places share it |
| PostalFacilities.Facility | frontend/src/services/postalFacilities.ts:68-75 | the pushed option: name "<town>, <state>", referenceCode and type "", no coordinates |
| PostalFacilities.Entries | frontend/src/services/postalFacilities.ts:86-91 | one entry per row, `None` for a row with a null or blank town or state |
| PostalFacilities.EntriesAppend | frontend/src/services/postalFacilities.ts:86-91 | the catalogue rows' entries come before the submission rows' entries |
| PostalFacilities.Collected | frontend/src/services/postalFacilities.ts:64-76 | one option per distinct key, numbered by push order |
| PostalFacilities.Seen | frontend/src/services/postalFacilities.ts:61-67 | definition: the keys of the entries so far, the contents of `seen` |
| PostalFacilities.FirstOfKey | frontend/src/services/postalFacilities.ts:66 | definition: entry j is valid and no earlier entry has its key, the case in which `add` pushes |
| PostalFacilities.SeenKeys | frontend/src/services/postalFacilities.ts:65-67 | a key is in `seen` exactly when some accepted row has that key |
| PostalFacilities.FirstOfKeyPrefix | frontend/src/services/postalFacilities.ts:86-91 | whether a row is the first of its key depends only on the rows before it |
| PostalFacilities.LastFirstOfKey | frontend/src/services/postalFacilities.ts:66 | a row is the first of its key exactly when its key was not yet seen |
| PostalFacilities.CollectedFromFirst | frontend/src/services/postalFacilities.ts:64-76 | every pushed option comes from the first row of its key, casing included |
| PostalFacilities.LastCollected | frontend/src/services/postalFacilities.ts:68-75 | a first-of-key row pushes its option at the current length |
| PostalFacilities.FirstCollected | frontend/src/services/postalFacilities.ts:64-76 | the first row of every key pushes an option |
| PostalFacilities.CatalogRowsFirst | frontend/src/services/postalFacilities.ts:86-91 | catalogue rows are processed first: a catalogue row's first-of-key status ignores the submissions |
| PostalFacilities.KeyInjective | frontend/src/services/postalFacilities.ts:65 | without "\|" in the town, equal keys mean equal lower-cased trimmed town and state |
| PostalFacilities.KeyCollision | frontend/src/services/postalFacilities.ts:65 | with "\|" in a field, two different places share a key |
| PostalFacilities.ByName | frontend/src/services/postalFacilities.ts:93 | definition: options compared by name with the collation |
| PostalFacilities.ByNamePreorder | frontend/src/services/postalFacilities.ts:93 | comparing options by name is a total preorder when the string comparator is |
| PostalFacilities.Renumber | frontend/src/services/postalFacilities.ts:94 | ids are replaced by positions and nothing else changes |
| PostalFacilities.StoreFacilities | frontend/src/services/postalFacilities.ts:60-95 | definition: the collected options of both tables, catalog rows first, sorted by name and renumbered; StoreFacilitiesOrder, StoreFacilitiesFromFirst and StoreFacilitiesComplete state what it holds |
| PostalFacilities.StoreFacilitiesOrder | frontend/src/services/postalFacilities.ts:93-94 | one option per distinct key, ids 0..n-1, sorted by name |
| PostalFacilities.StoreFacilitiesFromFirst | frontend/src/services/postalFacilities.ts:60-95 | each store option is, apart from its id, the option of the first row of its key |
| PostalFacilities.RenumberedSortKeeps | frontend/src/services/postalFacilities.ts:93-94 | sorting and renumbering keep every option apart from its id |
| PostalFacilities.SortedComplete | frontend/src/services/postalFacilities.ts:93-94 | the first row of each key survives sorting and renumbering |
| PostalFacilities.StoreFacilitiesComplete | frontend/src/services/postalFacilities.ts:60-95 | the first row of each key gives a store option |
| PostalFacilities.Add | frontend/src/services/postalFacilities.ts:64-76 | `add`: a new key pushes its option, numbered by the current length, and is recorded; a blank value or a seen key changes nothing |
| PostalFacilities.AddRow | frontend/src/services/postalFacilities.ts:87 | a row with both values goes through `add`; a row with a null value is skipped |
| PostalFacilities.AddRows | frontend/src/services/postalFacilities.ts:86-91 | one `for` loop: `seen` and `options` become those of all rows so far |
| PostalFacilities.CollectRows | frontend/src/services/postalFacilities.ts:86-91 | the two `for` loops from an empty `seen` and `options` leave exactly the options collected from the catalog rows followed by the submission rows |
| PostalFacilities.FacilitiesFromStore | frontend/src/services/postalFacilities.ts:60-95 | the two loops, the sort and the renumbering yield the store options |
| PostalFacilities.GetPostalFacilities | frontend/src/services/postalFacilities.ts:101-117 | unconfigured: the store options; configured: the throws or one option per result with postalFacilityId, currentName and currentType |
| PostalFacilities.PostalFacilitiesUrl | frontend/src/services/postalFacilities.ts:48-54 | null exactly when unset or blank; idempotent; the request adds one slash |
| FilterOptions.BlankLower | frontend/src/hooks/useFilterOptions.ts:13 | a name lower-cases to a blank string exactly when it is blank |
| FilterOptions.MapToColorOption | frontend/src/hooks/useFilterOptions.ts:12-15 | label = name; value = lower-cased trimmed name, non-empty, or the name itself when blank |
| FilterOptions.MapToColorOptionStable | frontend/src/hooks/useFilterOptions.ts:12-15 | mapping a mapped value gives that value back as value and label |
| FilterOptions.MapToColorOptionCaseInsensitive | frontend/src/hooks/useFilterOptions.ts:12-15 | names equal up to case and surrounding space get one value and keep their own labels |
| FilterOptions.PrimaryMessage | frontend/src/hooks/useFilterOptions.ts:35 | definition: the primary error's message, or "Failed to fetch filter options" for a thrown non-error |
| FilterOptions.Settled | frontend/src/hooks/useFilterOptions.ts:26-39 | no error exactly when one source answered; the primary's array (or []) when it answered; the mapped fallback names otherwise; both failing gives [] and the primary's message |
| FilterOptions.PrimaryAnswerIgnoresFallback | frontend/src/hooks/useFilterOptions.ts:26-28 | once the primary answers, the fallback's outcome makes no difference |
| FilterOptions.BothFailReportPrimary | frontend/src/hooks/useFilterOptions.ts:34-39 | when both fail, the error is the primary's, whatever the fallback threw |
| FilterOptions.FilterOptionsHook.constructor | frontend/src/hooks/useFilterOptions.ts:18-20 | no options, loading, no error |
| FilterOptions.FilterOptionsHook.Begin | frontend/src/hooks/useFilterOptions.ts:23-24 | a fetch starts by setting loading and clearing the error |
| FilterOptions.FilterOptionsHook.Finish | frontend/src/hooks/useFilterOptions.ts:26-42 | the fallback is called exactly when the primary failed; options and error are the settled ones; loading ends |
| FilterOptions.FilterOptionsHook.FetchOptions | frontend/src/hooks/useFilterOptions.ts:22-43 | a whole fetch: the fallback runs only after a primary failure, the state is the settled outcome, loading is false |
| CatalogSync.Matches | frontend/src/services/catalogSync.ts:24-28 | definition: the five `.eq` columns (name, state, town, date range, type) agree; colour and image are not compared |
| CatalogSync.MatchAt | frontend/src/services/catalogSync.ts:21-30 | definition: row k of the table matches the submission |
| CatalogSync.HasMatch | frontend/src/services/catalogSync.ts:21-32 | definition: the lookup finds a matching row, so `existing` is truthy |
| CatalogSync.ThrownText | frontend/src/services/catalogSync.ts:52 | definition: a thrown error's message, or "Failed to sync to catalog" for a thrown non-error |
| CatalogSync.Sync | frontend/src/services/catalogSync.ts:17-55 | definition of one sync: a thrown lookup reports its text; a match returns ok; otherwise the insert's outcome decides. SyncShape, MatchSkipsInsert and SyncIdempotent state its properties |
| CatalogSync.NewRecord | frontend/src/services/catalogSync.ts:36-45 | the inserted row carries the submission's seven fields and valuation "Common" |
| CatalogSync.SyncShape | frontend/src/services/catalogSync.ts:17-55 | a sync adds at most one row, the submission's, only when no match was found; ok exactly when a matching row is left and nothing failed; a failure changes nothing and carries a message |
| CatalogSync.MatchSkipsInsert | frontend/src/services/catalogSync.ts:32-34 | a found match returns ok and inserts nothing |
| CatalogSync.SyncIdempotent | frontend/src/services/catalogSync.ts:13-16 | after a successful sync, a second sync of the same submission changes nothing |
| CatalogSync.ColorAndImageIgnored | frontend/src/services/catalogSync.ts:24-28 | a submission differing only in colour or image is not inserted again |
| CatalogSync.FailedLookupInsertsAgain | frontend/src/services/catalogSync.ts:21-32 | a failed lookup counts as no match, so a second matching row can be inserted |
| CatalogSync.CatalogTable.constructor | frontend/src/services/catalogSync.ts:21-22 | the table starts with the given rows |
| CatalogSync.CatalogTable.SyncApproved | frontend/src/services/catalogSync.ts:17-55 | the table and the result after the call are those of `Sync` |
| SpaView.LStrip | woco/views.py:25 | `lstrip("/")` removes exactly the leading run of slashes |
| SpaView.RemoveDotPairs | woco/views.py:25 | `replace("..", "")` never makes the path longer |
| SpaView.NoDotPair | woco/views.py:24-25 | definition: no two adjacent dots, what "no traversal" asks of the sanitised path |
| SpaView.RemoveDotPairsNoDotPair | woco/views.py:25 | the result never contains "..", and a first character that is not a dot survives |
| SpaView.RemoveDotPairsFront | woco/views.py:25 | a leading ".." is removed |
| SpaView.NoDotsRemoveNothing | woco/views.py:25 | a path without dots is unchanged |
| SpaView.DotRunHalves | woco/views.py:25 | a run of k dots shrinks to k mod 2 dots |
| SpaView.RemoveDotPairsKeepsNonDots | woco/views.py:25 | every character other than a dot survives, in order |
| SpaView.SafePath | woco/views.py:24-25 | the sanitised path as written contains no ".." and is no longer than the request |
| SpaView.LeadingSlashSurvives | woco/views.py:24-25 | the "no leading slash" comment fails: "../etc" sanitises to "/etc" |
| SpaView.SanitisedPath | woco/views.py:24-25 | with the slashes stripped after the dots, the path has neither ".." nor a leading slash |
| SpaView.Join | woco/views.py:27 | `root / p` is `p` when `p` is absolute, and otherwise ends with `p` |
| SpaView.IndexPath | woco/views.py:30 | definition: `root / "index.html"` |
| SpaView.Target | woco/views.py:27 | definition: `(root / safe_path).resolve()` |
| SpaView.ServeAsWritten | woco/views.py:18-38 | the view as written: 404 when the root is missing, or when no file is served and there is no index; a qualifying file is served; the index when no file qualifies and there is one |
| SpaView.EmptyPathServesIndex | woco/views.py:26-38 | a path that sanitises to "" serves index.html when it exists |
| SpaView.SiblingSafePath | woco/views.py:25 | "..<root><rest>" sanitises to "<root><rest>" |
| SpaView.SiblingDirectoryEscapes | woco/views.py:27-28 | the string-prefix test serves a file of the sibling directory "/srv/dist-x" for root "/srv/dist" |
| SpaView.Inside | woco/views.py:27-28 | definition: the resolved path starts with the root followed by a slash, so it lies under the root directory, the containment the docstring intends |
| SpaView.Serve | woco/views.py:18-38 | the repaired view serves a file exactly when it is a file inside the resolved root, named by a non-empty relative path; otherwise the index, or 404 |
| SpaView.SiblingDirectoryRefused | woco/views.py:27-29 | the repaired view does not serve the sibling directory's file |
| StatusBadges.BadgeFor | frontend/src/pages/Dashboard.tsx:108-119 | "approved", "rejected" and "revision" have their own badges; every other status is Pending |
| StatusBadges.DetailBadge | frontend/src/components/CatalogEntryDetailView.tsx:115 | the detail view shows a badge exactly when the entry has a status |
| CatalogSearch.Transform | frontend/src/pages/Search.tsx:59-69 | fields renamed unchanged; the image is the URL when non-empty, else the sample image, never empty |
| CatalogSearch.TransformAll | frontend/src/pages/Search.tsx:59-69 | one record per row, in order |
| CatalogSearch.KeywordQuery | frontend/src/pages/Search.tsx:245 | the query has the trimmed keyword's length |
| CatalogSearch.FieldContains | frontend/src/pages/Search.tsx:247 | definition: the field is not null and its lower-cased text includes the query |
| CatalogSearch.KeywordMatches | frontend/src/pages/Search.tsx:244-250 | definition: a blank keyword keeps everything; otherwise one of name, town, state, type or colour includes the trimmed lower-cased keyword |
| CatalogSearch.StateMatches | frontend/src/pages/Search.tsx:253 | definition: "all", or the record's state equals the filter |
| CatalogSearch.TownMatches | frontend/src/pages/Search.tsx:256 | definition: an empty filter, or the lower-cased town (null read as "") includes the lower-cased filter |
| CatalogSearch.YearSpan | frontend/src/pages/Search.tsx:259-262 | definition: the date range split on "-", the first two pieces read by `parseInt`, the end falling back on the begin only when there is no second piece; SingleYearSpan, TwoYearSpan and OpenEndedRange state its cases |
| CatalogSearch.Below | frontend/src/pages/Search.tsx:263 | definition: `x < bound`, false for a NaN bound |
| CatalogSearch.Above | frontend/src/pages/Search.tsx:264 | definition: `x > bound`, false for a NaN bound |
| CatalogSearch.YearsMatch | frontend/src/pages/Search.tsx:263-264 | definition: each set year bound needs a readable begin (or end) year not below (or above) it |
| CatalogSearch.KindMatches | frontend/src/pages/Search.tsx:267 | definition: "all", or the record's type equals the filter |
| CatalogSearch.ColorMatches | frontend/src/pages/Search.tsx:270 | definition: "all", or the record's lower-cased colour equals the filter as given |
| CatalogSearch.ValuationMatches | frontend/src/pages/Search.tsx:273 | definition: "all", or the record's valuation equals the filter |
| CatalogSearch.ManuscriptAllowed | frontend/src/pages/Search.tsx:276 | definition: not both the checkbox and type "Manuscript" |
| CatalogSearch.ImageAllowed | frontend/src/pages/Search.tsx:279 | definition: not both "images only" and an empty image |
| CatalogSearch.Keep | frontend/src/pages/Search.tsx:242-282 | definition: the conjunction of the filters, the callback `filter` applies |
| CatalogSearch.FilteredResults | frontend/src/pages/Search.tsx:241-283 | every kept record is a catalogue record satisfying all ten predicates |
| CatalogSearch.FilteredComplete | frontend/src/pages/Search.tsx:241-283 | every record satisfying all ten predicates is kept |
| CatalogSearch.FilteredKeepsOrder | frontend/src/pages/Search.tsx:242 | filtering distributes over concatenation: order is preserved |
| CatalogSearch.DefaultsKeepRecord | frontend/src/pages/Search.tsx:241-283 | the default filters keep any record |
| CatalogSearch.DefaultsKeepAll | frontend/src/pages/Search.tsx:241-283 | with default filters the result is the whole list |
| CatalogSearch.KeywordIgnoresSurroundingSpace | frontend/src/pages/Search.tsx:244-250 | the keyword is trimmed before matching |
| CatalogSearch.KeywordIgnoresCase | frontend/src/pages/Search.tsx:244-250 | the keyword matches regardless of its case |
| CatalogSearch.TownFilterNotTrimmed | frontend/src/pages/Search.tsx:256 | the town filter is not trimmed: white space in it rejects a town without white space |
| CatalogSearch.UnparseableYearsExcluded | frontend/src/pages/Search.tsx:263-264 | with a year bound set, a record whose year is NaN is dropped |
| CatalogSearch.MissingDateRangeHasNoYears | frontend/src/pages/Search.tsx:259-262 | a null date range has NaN begin and end |
| CatalogSearch.SingleYearSpan | frontend/src/pages/Search.tsx:259-262 | "1825" gives begin = end = 1825 |
| CatalogSearch.TwoYearSpan | frontend/src/pages/Search.tsx:259-262 | "a-b" gives begin a and end b |
| CatalogSearch.OpenEndedRange | frontend/src/pages/Search.tsx:260-262 | "1825-" has a NaN end: the end falls back to the begin only when there is no second part |
| CatalogSearch.EarlierSingleYearExcluded | frontend/src/pages/Search.tsx:263 | a single year before the begin bound is dropped |
| CatalogSearch.RangeWithinBoundsKept | frontend/src/pages/Search.tsx:259-264 | a range inside both bounds passes the year test |
| CatalogSearch.ExcludeManuscriptsDropsExactlyManuscripts | frontend/src/pages/Search.tsx:276 | "exclude manuscripts" drops exactly the records of type "Manuscript" |
| CatalogSearch.UpperCaseColorMatchesNothing | frontend/src/pages/Search.tsx:270 | a colour filter with an upper-case letter matches nothing, since only the record is lower-cased |
| CatalogSearch.ImagesOnlyKeepsImaged | frontend/src/pages/Search.tsx:279 | "images only" keeps every record with an image |
| CatalogSearch.ImagesOnlyKeepsFetched | frontend/src/pages/Search.tsx:68 | "images only" never removes a fetched record, which always has at least the sample image |
| CatalogSearch.StateFilterNarrows | frontend/src/pages/Search.tsx:253 | choosing a state after "all" narrows the list to that state's records |
| CatalogSearch.TotalPages | frontend/src/pages/Search.tsx:286 | `ceil(n / 9)`: the pages hold all n items and there is no empty page |
| CatalogSearch.JsSlice | frontend/src/pages/Search.tsx:289 | `slice(start, end)` clamps both ends to the list |
| CatalogSearch.Clamp | frontend/src/pages/Search.tsx:289 | an index clamped into 0..n |
| CatalogSearch.PageItems | frontend/src/pages/Search.tsx:287-290 | definition: `slice((p-1)*9, (p-1)*9 + 9)`; PageItemsRange states what it holds |
| CatalogSearch.PageItemsRange | frontend/src/pages/Search.tsx:287-290 | page p shows items (p-1)*9 up to min(p*9, n), at most nine, none past the last page |
| CatalogSearch.FirstPages | frontend/src/pages/Search.tsx:286-290 | definition: pages 1 to k one after another; FirstPagesPrefix states it is a prefix of the results |
| CatalogSearch.FirstPagesPrefix | frontend/src/pages/Search.tsx:286-290 | the first k pages together are the first min(9k, n) items, in order |
| CatalogSearch.PagesPartition | frontend/src/pages/Search.tsx:286-290 | pages 1..totalPages together are exactly the filtered list |
| CatalogSearch.EmptyResultShowsNothing | frontend/src/pages/Search.tsx:286-290 | no results: no pages and nothing shown |
| CatalogSearch.SearchPage.constructor | frontend/src/pages/Search.tsx:28-45 | no records, loading, default filters, page 1 |
| CatalogSearch.SearchPage.PageInRange | frontend/src/pages/Search.tsx:286-295 | definition: the current page lies between 1 and the page count (1 when there are no pages) |
| CatalogSearch.SearchPage.Results | frontend/src/pages/Search.tsx:241-283 | definition: `filteredResults` of the page's records and filters |
| CatalogSearch.SearchPage.PageCount | frontend/src/pages/Search.tsx:286 | definition: `totalPages` of the current results |
| CatalogSearch.SearchPage.Shown | frontend/src/pages/Search.tsx:287-290 | definition: `paginatedResults`, the current page's slice |
| CatalogSearch.SearchPage.Load | frontend/src/pages/Search.tsx:48-80 | the fetched rows transformed, or the old records after an error; loading ends; filters and page untouched |
| CatalogSearch.SearchPage.SetFilters | frontend/src/pages/Search.tsx:293-295 | a filter change resets the page to 1; setting the same values leaves the page; the page stays in range |
| CatalogSearch.SearchPage.ClearAllFilters | frontend/src/pages/Search.tsx:298-310 | all ten filters return to their defaults and the page to 1 |
| CatalogSearch.SearchPage.GoToPage | frontend/src/pages/Search.tsx:661 | a page link shows that page, which is in range |
| CatalogSearch.SearchPage.Previous | frontend/src/pages/Search.tsx:653 | `max(1, p - 1)`, keeping the page in range |
| CatalogSearch.SearchPage.Next | frontend/src/pages/Search.tsx:672 | `min(totalPages, p + 1)`, keeping the page in range |
| EntryDetail.OrDash | frontend/src/components/CatalogEntryDetailView.tsx:39 | `x \|\| "—"` is never empty and keeps a non-empty value |
| EntryDetail.ParseDateRange | frontend/src/components/CatalogEntryDetailView.tsx:32-40 | neither side of the parsed range is ever empty |
| EntryDetail.ParseBlank | frontend/src/components/CatalogEntryDetailView.tsx:33-34 | a null or blank range gives "—" and "—" |
| EntryDetail.ParseWithoutHyphen | frontend/src/components/CatalogEntryDetailView.tsx:35-36 | a range without a hyphen gives the trimmed text and "—" |
| EntryDetail.ParseAtFirstHyphen | frontend/src/components/CatalogEntryDetailView.tsx:35-39 | the split is at the first hyphen; everything after it, further hyphens included, is the last year; both sides trimmed or "—" |
| EntryDetail.TrimmedText | frontend/src/components/CatalogEntryDetailView.tsx:149 | `value?.trim()` is empty exactly when the value is null or blank |
| EntryDetail.TrimmedOrDash | frontend/src/components/CatalogEntryDetailView.tsx:149-153 | the dimensions and manuscript rows show the trimmed value, or "—" when null or blank |
| EntryDetail.RarityRow | frontend/src/components/CatalogEntryDetailView.tsx:157 | the trimmed rarity if not blank, else the trimmed valuation if not blank, else "—" |
| EntryDetail.RarityBadge | frontend/src/components/CatalogEntryDetailView.tsx:118-119 | the badge shows `rarity ?? valuation` unless that is null or "" |
| EntryDetail.EmptyRarityHidesBadge | frontend/src/components/CatalogEntryDetailView.tsx:118-119 | rarity "" hides the badge even when the valuation is set, while the rarity row shows the valuation |
| Dashboard.FieldContains | frontend/src/pages/Dashboard.tsx:83 | definition: the field is not null and its lower-cased text includes the query |
| Dashboard.TextMatches | frontend/src/pages/Dashboard.tsx:80-86 | definition: a blank query keeps everything; otherwise name, town or state includes the trimmed lower-cased query |
| Dashboard.StatusMatches | frontend/src/pages/Dashboard.tsx:89 | definition: "all", or the status equals the filter |
| Dashboard.StateMatches | frontend/src/pages/Dashboard.tsx:92 | definition: "all", or the state equals the filter |
| Dashboard.DatesMatch | frontend/src/pages/Dashboard.tsx:95-96 | definition: each set bound excludes a submission only when both dates are readable and it lies outside; DateBoundsInclusive, DateFromOnly, DateToOnly and UnreadableDatesKeep state its cases |
| Dashboard.Keep | frontend/src/pages/Dashboard.tsx:78-98 | definition: the conjunction of the five filters |
| Dashboard.FilteredSubmissions | frontend/src/pages/Dashboard.tsx:77-100 | every kept submission is one of the user's and passes all filters |
| Dashboard.FilteredComplete | frontend/src/pages/Dashboard.tsx:77-100 | every submission passing all filters is kept |
| Dashboard.FilteredKeepsOrder | frontend/src/pages/Dashboard.tsx:78 | order is preserved |
| Dashboard.DefaultsKeepSubmission | frontend/src/pages/Dashboard.tsx:77-100 | the default filters keep any submission |
| Dashboard.DefaultsKeepAll | frontend/src/pages/Dashboard.tsx:77-100 | with default filters the list is unchanged |
| Dashboard.TextIgnoresKindAndColor | frontend/src/pages/Dashboard.tsx:80-86 | the text search never looks at type or colour |
| Dashboard.ExactStatusAndState | frontend/src/pages/Dashboard.tsx:89-92 | status and state filters are exact equality, and independent of each other and the rest |
| Dashboard.DateBoundsInclusive | frontend/src/pages/Dashboard.tsx:95-96 | with readable dates, a submission passes exactly when dateFrom ≤ created_at ≤ dateTo |
| Dashboard.DateFromOnly | frontend/src/pages/Dashboard.tsx:95 | with only the "from" date set and readable, a submission passes exactly when it was made on or after it |
| Dashboard.DateToOnly | frontend/src/pages/Dashboard.tsx:96 | with only the "to" date set and readable, a submission passes exactly when it was made on or before it |
| Dashboard.UnreadableDatesKeep | frontend/src/pages/Dashboard.tsx:95-96 | an unreadable creation time passes any bounds, and a set but unreadable bound filters as if it were empty |
| Dashboard.TruthyStates | frontend/src/pages/Dashboard.tsx:104 | exactly the non-null, non-empty states, each drawn from the submissions |
| Dashboard.StatesOf | frontend/src/pages/Dashboard.tsx:104 | `submissions.map(s => s.state)` |
| Dashboard.UniqueStates | frontend/src/pages/Dashboard.tsx:103-106 | the distinct truthy states, with no duplicates, each drawn from the submissions and each present |
| Dashboard.UniqueStatesInFirstOccurrenceOrder | frontend/src/pages/Dashboard.tsx:103-106 | the states come in first-occurrence order |
| Dashboard.DashboardPage.constructor | frontend/src/pages/Dashboard.tsx:20-30 | no submissions, loading, default filters |
| Dashboard.DashboardPage.Current | frontend/src/pages/Dashboard.tsx:20-30 | definition: the page's five filter values as one criteria value |
| Dashboard.DashboardPage.LoadSubmissions | frontend/src/pages/Dashboard.tsx:43-74 | signed out: []; fetched: the rows, null as []; error: the old list; loading ends; filters untouched |
| Dashboard.DashboardPage.ClearFilters | frontend/src/pages/Dashboard.tsx:215-221 | all five filters return to "" / "all" |
| Contribute.StateLabel | frontend/src/pages/Contribute.tsx:162 | the label of the state code when it is among the options, else the code itself |
| Contribute.LabelIn | frontend/src/pages/Contribute.tsx:162 | `find(...)?.label ?? code` over any option list |
| Contribute.BuildName | frontend/src/pages/Contribute.tsx:161-164 | definition: the trimmed town, ", ", the state label, a space and the type, the whole trimmed; BuildNameShape states its result |
| Contribute.BuildNameShape | frontend/src/pages/Contribute.tsx:161-164 | the name is "<trimmed town>, <label> <type>" |
| Contribute.BuildDateRange | frontend/src/pages/Contribute.tsx:166-171 | "" exactly when the first year is blank; the trimmed first year alone when the last is blank; otherwise "first-last", both trimmed |
| Contribute.DateRangeRoundTrip | frontend/src/pages/Contribute.tsx:166-171 | the detail view reads a built range back as the two trimmed years, "—" for a blank last year |
| Contribute.RoundTripFirstOnly | frontend/src/pages/Contribute.tsx:169-170 | a range of one year reads back as that year and "—" |
| Contribute.RoundTripBoth | frontend/src/pages/Contribute.tsx:170 | "first-last" reads back as first and last |
| Contribute.UploadExtension | frontend/src/pages/Contribute.tsx:215 | the extension is non-empty and dot-free, a suffix of the name or "jpg", and the whole name when it has no dot |
| Contribute.UploadExtensionAfterLastDot | frontend/src/pages/Contribute.tsx:215 | the extension is the text after the last dot |
| Contribute.UploadExtensionTrailingDot | frontend/src/pages/Contribute.tsx:215 | only an empty last segment falls back to "jpg" |
| Contribute.Optional | frontend/src/pages/Contribute.tsx:245-250 | `x.trim() \|\| null`: null exactly when blank, else the trimmed value |
| Contribute.MessageOr | frontend/src/pages/Contribute.tsx:283 | the error's message, or the fallback text for a thrown non-error |
| Contribute.FromRow | frontend/src/pages/Contribute.tsx:113-118 | a loaded row keeps its fields, and a null status becomes "pending" |
| Contribute.FromRows | frontend/src/pages/Contribute.tsx:113-118 | one entry per loaded row, in order |
| Contribute.RequiredFilled | frontend/src/pages/Contribute.tsx:185-191 | definition: state, town, first year, type and colour are all non-blank |
| Contribute.Payload | frontend/src/pages/Contribute.tsx:236-252 | status "pending", the trimmed state code (not its label), the built name and range, blank optional fields as null, the submitter's full name or e-mail |
| Contribute.RequiredImpliesDateRange | frontend/src/pages/Contribute.tsx:191-208 | once the required fields pass, the date range is non-empty: "Invalid date" is unreachable |
| Contribute.UploadStep | frontend/src/pages/Contribute.tsx:212-231 | with a file, the path "<user>/<id>.<ext>" and the public URL when the upload succeeds; a failed upload only loses the image |
| Contribute.Submit | frontend/src/pages/Contribute.tsx:173-289 | definition of one submit: sign-in prompt, missing fields, invalid date, or upload and insert; SubmitRejectedLeavesForm, SubmitRowWellFormed, SubmitSuccessResets, UploadFailureStillSubmits and SubmitFailureKeepsForm state its outcomes |
| Contribute.SubmitRejectedLeavesForm | frontend/src/pages/Contribute.tsx:175-198 | signed out or a required field blank: no upload, no insert, the form untouched |
| Contribute.SubmitRowWellFormed | frontend/src/pages/Contribute.tsx:185-252 | a row is inserted exactly when signed in with the required fields; it is pending, has a date range and the trimmed state code; "Invalid date" never occurs |
| Contribute.SubmitSuccessResets | frontend/src/pages/Contribute.tsx:261-279 | success clears the eleven fields and the image and puts exactly one pending entry first |
| Contribute.UploadFailureStillSubmits | frontend/src/pages/Contribute.tsx:224-230 | a failed upload still submits, without an image |
| Contribute.SubmitFailureKeepsForm | frontend/src/pages/Contribute.tsx:280-285 | a failed insert keeps the form and shows the error's message |
| Contribute.ContributeForm.constructor | frontend/src/pages/Contribute.tsx:62-79 | empty fields, no image, not submitting, no submissions |
| Contribute.ContributeForm.LoadMySubmissions | frontend/src/pages/Contribute.tsx:97-130 | signed out: []; loaded: the rows with null status as "pending"; error: unchanged; the form untouched |
| Contribute.ImageAcceptable | frontend/src/pages/Contribute.tsx:139-151 | definition: the type is one of the five allowed image types and the size is at most 10 MiB |
| Contribute.ContributeForm.HandleImageChange | frontend/src/pages/Contribute.tsx:132-159 | accepted exactly when the type is one of five and the size is at most 10 MiB; an empty selection clears file and preview; a rejected file leaves both |
| Contribute.ContributeForm.RemoveImage | frontend/src/pages/Contribute.tsx:515 | the remove button clears file and preview and nothing else |
| Contribute.ContributeForm.HandleSubmit | frontend/src/pages/Contribute.tsx:173-289 | the form's new state and the outcome are those of `Submit`; submitting is false after an insert attempt |
| SubmitImage.NoSpaceOrAt | frontend/src/components/SubmitImageDialog.tsx:39 | definition: the class `[^\s@]` holds of every character |
| SubmitImage.EmailShape | frontend/src/components/SubmitImageDialog.tsx:39 | definition: three non-empty `[^\s@]` runs joined by "@" and ".", the language of the pattern |
| SubmitImage.EmailShapeAt | frontend/src/components/SubmitImageDialog.tsx:39 | definition: that shape with the "@" and the "." at given positions |
| SubmitImage.MatchesEmailPattern | frontend/src/components/SubmitImageDialog.tsx:39 | definition: the pattern test read left to right; EmailPatternIff states it accepts exactly EmailShape |
| SubmitImage.PatternHasShape | frontend/src/components/SubmitImageDialog.tsx:39 | a string matching `^[^\s@]+@[^\s@]+\.[^\s@]+$` has the shape local@domain.tld |
| SubmitImage.ShapeMatchesPattern | frontend/src/components/SubmitImageDialog.tsx:39 | every string of that shape matches the pattern |
| SubmitImage.EmailPatternIff | frontend/src/components/SubmitImageDialog.tsx:39 | the pattern matcher accepts exactly the local@domain.tld shape |
| SubmitImage.PatternRejectsSpace | frontend/src/components/SubmitImageDialog.tsx:39 | no string with white space matches |
| SubmitImage.FormErrors | frontend/src/components/SubmitImageDialog.tsx:26-45 | an error for exactly the failing fields: no file, blank name, blank ("cannot be empty") or malformed ("valid email") e-mail |
| SubmitImage.ValidIff | frontend/src/components/SubmitImageDialog.tsx:26-45 | the form is valid exactly when a file is set, the name is not blank, and the untrimmed e-mail matches the pattern |
| SubmitImage.SpacedEmailRefused | frontend/src/components/SubmitImageDialog.tsx:37-40 | an e-mail with white space passes the blank check but fails the pattern |
| SubmitImage.SubmitImageDialog.constructor | frontend/src/components/SubmitImageDialog.tsx:15-24 | all five fields and the errors empty |
| SubmitImage.SubmitImageDialog.Cleared | frontend/src/components/SubmitImageDialog.tsx:73-78 | definition: every field empty and no errors, the state a reset leaves |
| SubmitImage.SubmitImageDialog.ValidateForm | frontend/src/components/SubmitImageDialog.tsx:26-45 | the errors become the form's errors, and the answer is whether there are none |
| SubmitImage.SubmitImageDialog.HandleFileChange | frontend/src/components/SubmitImageDialog.tsx:47-59 | png/jpeg/jpg sets the file and clears only its error; another type clears the file and sets its error; no selection changes nothing |
| SubmitImage.SubmitImageDialog.OnNameChange | frontend/src/components/SubmitImageDialog.tsx:145-150 | the name is set; a non-blank name clears only the name error |
| SubmitImage.SubmitImageDialog.OnEmailChange | frontend/src/components/SubmitImageDialog.tsx:166-171 | the e-mail is set; a non-blank e-mail clears only the e-mail error |
| SubmitImage.SubmitImageDialog.Reset | frontend/src/components/SubmitImageDialog.tsx:73-78 | all five fields and the errors cleared |
| SubmitImage.SubmitImageDialog.HandleSubmit | frontend/src/components/SubmitImageDialog.tsx:61-81 | closes exactly when the form is valid, then resets; otherwise the fields are unchanged and the errors are shown |
| SubmitImage.SubmitImageDialog.HandleCancel | frontend/src/components/SubmitImageDialog.tsx:83-91 | cancel resets everything and closes |
| RequestLogin.RequiredIssues | frontend/src/components/RequestLoginForm.tsx:13 | no issue exactly when the trimmed value has 1 to 100 characters |
| RequestLogin.EmailIssues | frontend/src/components/RequestLoginForm.tsx:17 | no issue exactly when the trimmed e-mail is an address of at most 255 characters |
| RequestLogin.OptionalIssues | frontend/src/components/RequestLoginForm.tsx:18-20 | no issue exactly when phone, organisation and comments are within 50, 200 and 1000 characters |
| RequestLogin.Issues | frontend/src/components/RequestLoginForm.tsx:12-21 | definition: the schema's issues, field by field in schema order |
| RequestLogin.Parse | frontend/src/components/RequestLoginForm.tsx:12-21 | definition: the trimmed values when there is no issue, the issues otherwise; ParseSucceedsIff states when it succeeds |
| RequestLogin.WithinBounds | frontend/src/components/RequestLoginForm.tsx:12-21 | definition: every trimmed field is within the schema's bounds and the e-mail is valid |
| RequestLogin.ParseSucceedsIff | frontend/src/components/RequestLoginForm.tsx:12-21 | the form parses exactly when every trimmed field is within its bounds; a failure has an issue |
| RequestLogin.BlankFirstNameReportedFirst | frontend/src/components/RequestLoginForm.tsx:13 | a blank first name is the first issue, "First name is required" |
| RequestLogin.OrNull | frontend/src/components/RequestLoginForm.tsx:57-62 | `x \|\| null`: null exactly for "" |
| RequestLogin.Insert | frontend/src/components/RequestLoginForm.tsx:52-63 | definition: the row inserted from the validated values, empty optional fields as null; InsertUsesTrimmedValues states its contents |
| RequestLogin.InsertUsesTrimmedValues | frontend/src/components/RequestLoginForm.tsx:52-63 | the row holds the trimmed values, with blank optional fields as null |
| RequestLogin.FailureText | frontend/src/components/RequestLoginForm.tsx:94 | the error's message when it has one, else "Failed to submit request" |
| RequestLogin.RequestLoginDialog.constructor | frontend/src/components/RequestLoginForm.tsx:29-40 | an empty form, not loading |
| RequestLogin.RequestLoginDialog.HandleSubmit | frontend/src/components/RequestLoginForm.tsx:42-101 | a row exactly when the form parses; otherwise one destructive toast with the first issue; success clears the form and closes; failure keeps the form; loading ends false |
| SignIn.Issues | frontend/src/pages/Auth.tsx:15-25 | definition: the schema's issues, the e-mail checked trimmed and the password as typed |
| SignIn.SafeParse | frontend/src/pages/Auth.tsx:15-25 | definition: the trimmed e-mail and the password when there is no issue, the issues otherwise; SafeParseIff states when it succeeds |
| SignIn.SafeParseIff | frontend/src/pages/Auth.tsx:15-25 | accepted exactly when the trimmed e-mail is an address of at most 255 characters and the password has 8 to 72; the call gets the trimmed e-mail and the untrimmed password |
| SignIn.ShortPasswordMessage | frontend/src/pages/Auth.tsx:21-23 | a short password with a valid e-mail is reported by the password message alone |
| SignIn.AuthPage.constructor | frontend/src/pages/Auth.tsx:28-30 | empty e-mail and password, not loading |
| SignIn.AuthPage.BeginSignIn | frontend/src/pages/Auth.tsx:44-60 | a sign-in call exactly when the input parses, and loading then; otherwise only the first issue's toast |
| SignIn.AuthPage.FinishSignIn | frontend/src/pages/Auth.tsx:62-81 | loading ends; home exactly when there was no error; an error shows its message |

## Left out

- Network, database, storage and authentication calls are not modelled as calls. Their answers are parameters: `Response`, `Result`, `Lookup`, `InsertOutcome`, `upload`, `inserted`. A service's `fetch` answer can be `Rejected`, which stands for a rejected `fetch(url)` or a rejected `res.json()` after an ok status; the two are not told apart, since both reach the caller unchanged.
- A failed Supabase query in the store fallbacks is modelled as `None`, read as `?? []`.
- `localeCompare` with `sensitivity: "base"` is an abstract total preorder `le`. The proofs hold for any such comparator.
- JavaScript's sort is modelled as a stable insertion sort on values. The in-place `options.sort` of the postal facilities is modelled on a sequence.
- zod's e-mail grammar (`isEmail`) and `new Date(...)` (`toTime`, `None` for an invalid date) are parameters.
- `crypto.randomUUID()` (`pathId`, `entryId`) and `new Date().toISOString()` (`now`) are parameters.
- The filesystem's `is_dir`, `is_file` and `resolve` are a `FileSystem` parameter.
- String lengths are counted in characters, not UTF-16 code units. `toLowerCase` lower-cases only the letters A to Z. White space is JavaScript's set, as `trim` and `\s` use it.
- The FileReader preview in the contribute form is not modelled; the preview is only cleared or kept.
- Toasts are modelled only where a property is about them (the sign-in page and the login-request form). The contribute form's toasts are reduced to an outcome kind.
- The comment and "receive e-mail" inputs of the image dialog have no modelled setters; they only take part in the resets.
- The image dialog's submit logs to the console and does nothing else. The logging is left out.
- Races between overlapping fetches and effect re-runs are not modelled: each handler runs to completion before the next.
- The axios client in `frontend/src/lib/api.ts` is not part of this model. The primary source of the filter-options hook is an outcome parameter.
- Django models, serializers, admin, URL routing and the queryset views are not part of this model.
- JsStrings.Split: its contract gives only the part count and the separator-free case. The upload extension uses `LastPiece`, defined directly as the text after the last separator, and is not proved equal to the last element of `Split`.
- JsStrings.ParseInt: returns the exact integer value of the digits. JavaScript's `parseInt` returns a double: digit strings above 2^53 are rounded, and very long ones give Infinity. So the year filters can differ from the source for years past 2^53. For example, with range "9007199254740992" and begin bound "9007199254740993", JavaScript compares two equal doubles and keeps the record, while the model drops it.
- JsStrings.ParseDigits: states the exact decimal value, which JavaScript matches only up to 2^53.
- CatalogSearch.SearchPage.GoToPage: requires a page between 1 and the page count. The page links exist only for those pages.
- CatalogSearch.SearchPage.Next: requires more than one page. The pager is only rendered then (Search.tsx:648).
- CatalogSearch.SearchPage.Load: does not keep the page in range. The source does not reset the page after a load either.
- FilterOptions.FilterOptionsHook.Finish: requires the cleared error that `Begin` leaves. `FetchOptions` runs both.

## Findings

| source | as written | input that shows it | evidently intended | confidence | as-written member | corrected member |
|---|---|---|---|---|---|---|
| woco/views.py:24-25 | `lstrip("/")` runs before `replace("..", "")`, so removing dots can expose a leading slash | "../etc" sanitises to "/etc", an absolute path that `root / safe_path` then takes as is | "no leading slash": strip the slashes after removing the dots | not executed | SpaView.LeadingSlashSurvives | SpaView.SanitisedPath |
| woco/views.py:27-28 | containment is a string-prefix test on the resolved path | root "/srv/dist" and path "../srv/dist-x/secret" serve "/srv/dist-x/secret", outside the root | serve only files inside the root directory | not executed | SpaView.SiblingDirectoryEscapes | SpaView.Serve |
