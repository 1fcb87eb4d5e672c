# Public-sector data portal: a verified model of its core

This Dafny project models the logic at the heart of a municipal open-data
portal. The portal is a React front end with a small Express back end. The
model covers:

- **The `/query` gateway of the back end** (`query_gateway.dfy`, module
  `QueryGateway`). This covers the sanitiser that strips every non-word
  character from table and column names, and the `SELECT … LIMIT 1000;`
  statement built from the sanitised identifiers. It also covers the
  handler's 400/500/execute decision and the table and column descriptors
  of the catalogue routes.
- **The CKAN client hook** (`ckan.dfy`, module `Ckan`). The
  `package_search` parameter list is assembled by a method with the same
  conditional appends as the hook. The model also has the shared response
  checks, the state a search leaves behind, `getDataset`, and the download
  name of a resource.
- **The CSV viewer** (`csv_view.dfy`, module `DataVisualization`). This is
  the choice of CSV resources, the naive line/comma reader (blank lines
  dropped, cells trimmed and unquoted, 100-row cap) and the writer used for
  downloads. The reader and writer are proved to round-trip on the tables
  the reader supports, and a quoted field holding a comma is shown to be
  read as two cells.
- **The WebGIS layer list** (`web_gis.dfy`, module `WebGis`). The page
  state is a class `LayerPanel` whose `layers` field is reassigned by
  toggle, import and remove. The model also has the fourteen initial
  layers and the statistics counters.
- **The map legend** (`map_legend.dfy`, module `MapLegend`): which layers
  are listed and which swatches each entry gets.
- **The layer import form** (`layer_import.dfy`, module `LayerImport`):
  name and extension checks, GeoJSON validation and the new layer record.
- **The admin upload form** (`dataset_upload.dfy`, module
  `AdminDatasetUpload`). This is the order of its checks, the decision on
  the server's answer, the dataset record with its derived format and date,
  and the category choices.
- **The local dataset list** (`local_datasets.dfy`, module
  `LocalDatasetManager`): the category filter, the empty state and the
  download link.
- **Tenant branding** (`branding.dfy`, module `Branding`). This is tenant
  detection from the hostname, the configuration overlays, and the colour
  strings `hexToHsl` accepts.

Three helper modules give the JavaScript primitives these rely on:

- `js_values.dfy`: `JsValues`, with decoded JSON values, truthiness and
  property access that throws on `null`/`undefined`;
- `js_text.dfy`: `JsText`, with `split`, `join`, `trim`, `indexOf`,
  `lastIndexOf`, ASCII case mapping and decimal formatting; its white
  space is JavaScript's WhiteSpace and LineTerminator set, which `trim`
  removes;
- `js_array.dfy`: `JsArray`, with `filter` and its laws.

## Model

| member | source | states |
|---|---|---|
| QueryGateway.StripIdentifier | public-sector-backend/server.js:82-83 | only word characters `[A-Za-z0-9_]` remain, and the result is no longer than the input |
| QueryGateway.SanitizeIdentifier | public-sector-backend/server.js:82-83 | the identifier is wrapped in double quotes with only word characters between them |
| QueryGateway.StripConcat | public-sector-backend/server.js:82-83 | stripping distributes over concatenation, so it keeps the order of the kept characters |
| QueryGateway.StripChar | public-sector-backend/server.js:82-83 | a single character survives exactly when it is a word character |
| QueryGateway.StripKeepsWordIdentifiers | public-sector-backend/server.js:82-83 | names already made of word characters pass unchanged |
| QueryGateway.StripIdempotent | public-sector-backend/server.js:82-83 | sanitising a sanitised name changes nothing |
| QueryGateway.StripAllDisallowed | public-sector-backend/server.js:82-83 | a name with no word character becomes the empty quoted identifier `""` |
| QueryGateway.StripKeepsCount | public-sector-backend/server.js:82-83 | every occurrence of every allowed character is kept, so nothing allowed is dropped |
| QueryGateway.SanitizeAllAt | public-sector-backend/server.js:83 | the k-th entry of the column list is the k-th requested column, sanitised |
| QueryGateway.QueryIdentifiers | public-sector-backend/server.js:82-85 | reading the quoted identifiers back from the statement gives the stripped columns in request order (duplicates kept), then the table: no name can escape its quotes |
| QueryGateway.QuotedColumnList | public-sector-backend/server.js:83 | the joined column list reads back as the stripped columns, whatever text surrounds it |
| QueryGateway.SelectIdentifiers | public-sector-backend/server.js:85 | a column list followed by one quoted table reads back as the columns then the table |
| QueryGateway.QueryShape | public-sector-backend/server.js:85 | the statement ends with its only `;` and has only word characters, quotes, spaces, commas and `;`, so there is no second statement and no comment |
| QueryGateway.ColumnListQueryChars | public-sector-backend/server.js:83 | the joined column list holds only statement characters and no `;` |
| QueryGateway.HandleQuery | public-sector-backend/server.js:73-92 | 400 exactly for a falsy table name, a non-array or an empty array; a statement exactly for a non-empty string table and all-string columns, built from them; otherwise the 500 message |
| QueryGateway.ExecutedQueryIdentifiers | public-sector-backend/server.js:76-87 | an executed statement names every requested column in order, then the table |
| QueryGateway.TableDisplayName | public-sector-backend/server.js:36 | underscores become spaces; a letter starting a word is upper-case; other characters are unchanged; the text is the same up to case |
| QueryGateway.TableDisplayNameIdempotent | public-sector-backend/server.js:36 | formatting a display name again changes nothing |
| QueryGateway.TableDescriptors | public-sector-backend/server.js:33-38 | one descriptor per table name, in order, with id, name, display name and `Tabela <name>` |
| QueryGateway.ColumnDescriptors | public-sector-backend/server.js:56-62 | one descriptor per column row, in order, type passed through, display name with underscores turned into spaces and nothing else changed |
| Ckan.BaseUrl | src/hooks/useCkan.ts:48 | a non-empty configured URL is used, else `https://demo.ckan.org` |
| Ckan.RowsValue | src/hooks/useCkan.ts:58 | an absent or zero page size becomes 10 |
| Ckan.StartValue | src/hooks/useCkan.ts:59 | an absent offset becomes 0 |
| Ckan.Lookup | src/hooks/useCkan.ts:55-60 | a name is found exactly when some pair carries it |
| Ckan.LookupAppend | src/hooks/useCkan.ts:56-60 | appending a pair keeps every earlier answer and answers a new name with the appended value |
| Ckan.SearchParams | src/hooks/useCkan.ts:55-60 | `q`, `fq` and `sort` are sent only when non-empty; `rows` and `start` are always sent with their defaults; each name appears at most once, in the order q, fq, rows, start, sort |
| Ckan.Append | src/hooks/useCkan.ts:56-60 | one `append` adds the pair at the end, keeps the order and changes only the new name's lookup |
| Ckan.ErrorReason | src/hooks/useCkan.ts:71 | a truthy `error.message` of the body is the reason; without one, the reason is `CKAN API returned an error`; always truthy |
| Ckan.CheckResponse | src/hooks/useCkan.ts:62-72 | a rejected `fetch` or failed `response.json()` is exactly a request failure; a non-ok response fails with `CKAN API error: <status>`; a null body is a TypeError; success exactly when `success` is truthy, with `result` as the value |
| Ckan.AfterSearch | src/hooks/useCkan.ts:62-83 | any failure, a thrown request included, keeps the old list and total and sets the error; a successful search takes `result.results` and `result.count` |
| Ckan.GetDataset | src/hooks/useCkan.ts:89-112 | `result` exactly when the checks succeed; nothing on any failure, a thrown request or a non-ok response included |
| Ckan.DatasetUrl | src/hooks/useCkan.ts:91 | the request path is the base URL, then the CKAN `/api/3/action/package_show?id=` action path, then the dataset id |
| Ckan.DownloadName | src/hooks/useCkan.ts:118 | the resource name, else `resource_<id>`; never empty |
| DataVisualization.CsvResources | src/components/DataVisualization.tsx:30-32 | exactly the resources whose lower-cased format contains `csv` |
| DataVisualization.CsvResourcesOrder | src/components/DataVisualization.tsx:30-32 | the selection keeps the resources' order |
| DataVisualization.CsvFormatCaseInsensitive | src/components/DataVisualization.tsx:31 | the format test ignores letter case |
| DataVisualization.NonBlankLines | src/components/DataVisualization.tsx:53 | the kept lines have visible text and no line break; every non-blank `\n`-segment of the text is kept |
| DataVisualization.NonBlankSegments | src/components/DataVisualization.tsx:53 | the lines read from a text are exactly its non-blank lines, in order: blank lines anywhere are dropped |
| DataVisualization.CleanCell | src/components/DataVisualization.tsx:59-61 | a cleaned cell has no `"`, is no longer than the raw cell and uses only its characters; a clean cell is unchanged |
| DataVisualization.CleanPaddedCell | src/components/DataVisualization.tsx:59-61 | a cell padded with white space is cleaned to its core with every `"` deleted |
| JsText.TrimPadded | src/components/DataVisualization.tsx:59-61 | `trim` gives back exactly the core between a white-space prefix and suffix |
| JsText.RemoveCharConcat | src/components/DataVisualization.tsx:59-61 | deleting `"` distributes over concatenation, so the other characters keep their order |
| DataVisualization.ParseLine | src/components/DataVisualization.tsx:59-61 | one cell per `,`-piece of the line, at least one; no cell holds `,` or `"` |
| DataVisualization.ParseJoinedCells | src/components/DataVisualization.tsx:59-61 | pieces joined with `,` give one cell per piece, each piece cleaned |
| DataVisualization.QuotedCommaSplits | src/components/DataVisualization.tsx:59-61 | a quoted field holding a comma, `"x,y"`, is read as the two cells `x` and `y` |
| DataVisualization.QuotedCommaExample | src/components/DataVisualization.tsx:59-61 | the line `"a,b"` is read as the cells `a` and `b` |
| DataVisualization.LoadCsv | src/components/DataVisualization.tsx:40-67 | a thrown request is exactly the engine-message error; a non-ok response fails with `Falha ao carregar o arquivo CSV`; a fetched text fails exactly when it has no non-blank line, with `Arquivo CSV vazio`; otherwise the non-blank lines are read into a table |
| DataVisualization.ReadLines | src/components/DataVisualization.tsx:55-62 | headers from the first line; at most 100 rows, each parsed from the following lines in order |
| DataVisualization.LoadedCellsClean | src/components/DataVisualization.tsx:59-62 | no header or cell that was read holds `,`, `"` or a line break |
| DataVisualization.SerializedLines | src/components/DataVisualization.tsx:138-141 | one written line for the headers, then one per row |
| DataVisualization.CleanLine | src/components/DataVisualization.tsx:139-140 | a line written from clean cells reads back as the same cells |
| DataVisualization.SerializedLinesRead | src/components/DataVisualization.tsx:138-141 | every written line is non-blank, has no line break and reads back as its cells |
| DataVisualization.NonBlankLinesOfJoin | src/components/DataVisualization.tsx:141 | joining non-blank single lines with `\n` and splitting again gives the same lines |
| DataVisualization.LoadSerialize | src/components/DataVisualization.tsx:46-62 | reading the downloaded text gives the displayed table back, for every table the reader supports |
| DataVisualization.DownloadPlan | src/components/DataVisualization.tsx:135-146 | nothing without data and a selected resource; else the written text, named after the resource or `data.csv` |
| WebGis.InitialLayers | src/pages/WebGIS.tsx:29-51 | the fourteen catalogued layers, with their ids in page order |
| WebGis.InitialLayersHidden | src/pages/WebGIS.tsx:29-51 | every initial layer is a hidden, non-imported overlay, so both counters start at zero |
| WebGis.InitialLayersDistinct | src/pages/WebGIS.tsx:29-51 | there are fourteen initial layers and no two share an id |
| WebGis.Toggled | src/pages/WebGIS.tsx:61-66 | only visibility changes; it flips exactly for the layers with the id |
| WebGis.ToggleTwice | src/pages/WebGIS.tsx:61-66 | toggling the same id twice restores the list |
| WebGis.ToggleAbsent | src/pages/WebGIS.tsx:61-66 | toggling an unknown id changes nothing |
| WebGis.ToggleActiveCount | src/pages/WebGIS.tsx:61-66 | with distinct ids, a toggle moves the active counter by exactly one when the id is present, and not at all otherwise |
| WebGis.AsImported | src/pages/WebGIS.tsx:77-82 | category `imported`, `imported` set and the upload date given; every other field copied |
| WebGis.WithoutLayer | src/pages/WebGIS.tsx:87-88 | no layer with the id remains; every other layer is kept |
| WebGis.WithoutLayerConcat | src/pages/WebGIS.tsx:87-88 | removal keeps the order of the remaining layers |
| WebGis.WithoutAbsent | src/pages/WebGIS.tsx:87-88 | removing an unknown id changes nothing |
| WebGis.RemoveUndoesImport | src/pages/WebGIS.tsx:76-88 | importing under a fresh id and then removing that id restores the list |
| WebGis.ImportCounts | src/pages/WebGIS.tsx:76-85 | an import raises the total and the imported counter by one; the active counter rises only for a visible layer |
| WebGis.LayerPanel.constructor | src/pages/WebGIS.tsx:29-51 | the panel starts with the initial layers |
| WebGis.LayerPanel.ToggleLayer | src/pages/WebGIS.tsx:61-66 | the new list is the toggle of the old one |
| WebGis.LayerPanel.ImportLayer | src/pages/WebGIS.tsx:76-85 | the new list is the old one plus the imported layer at the end |
| WebGis.LayerPanel.RemoveLayer | src/pages/WebGIS.tsx:87-88 | the new list is the old one without the id |
| WebGis.LayerPanel.Counters | src/pages/WebGIS.tsx:212-220 | active and imported counts never exceed the total, which is the list's length |
| MapLegend.LegendLayers | src/components/MapLegend.tsx:20 | exactly the visible overlays |
| MapLegend.LegendOrder | src/components/MapLegend.tsx:20 | the legend keeps the order of the layer list |
| MapLegend.Swatches | src/components/MapLegend.tsx:39-53 | each swatch appears exactly for its layer id, the green one exactly for imported layers; never more than two |
| MapLegend.Entry | src/components/MapLegend.tsx:36-60 | the entry shows the layer's id and name, with the low/high scale exactly for `population` |
| MapLegend.Legend | src/components/MapLegend.tsx:20-24 | nothing is rendered exactly when no visible overlay exists; otherwise one entry per listed layer |
| MapLegend.ImportedLayerListed | src/components/MapLegend.tsx:51-53 | a visible imported overlay is the last legend entry and carries the imported swatch |
| LayerImport.Extension | src/components/LayerImport.tsx:37 | the lower-cased text from the last dot on; the whole lower-cased name when there is no dot |
| LayerImport.KindOf | src/components/LayerImport.tsx:36-59 | `.geojson` and `.json` are read, `.kml` and `.gpx` are refused for now, anything else is unsupported |
| LayerImport.NoDotRejected | src/components/LayerImport.tsx:36-41 | a file name without a dot is never accepted |
| LayerImport.NewLayer | src/components/LayerImport.tsx:62-71 | id `imported_<timestamp>`, the typed name, a visible imported overlay with the parsed data |
| LayerImport.HandleFileUpload | src/components/LayerImport.tsx:19-71 | no file does nothing; a blank name is refused first; unsupported and KML/GPX files fail with their messages; a `.json`/`.geojson` file goes to the GeoJSON reader; a layer is produced exactly for a JSON file holding a FeatureCollection |
| LayerImport.ReadGeoJson | src/components/LayerImport.tsx:48-54 | accepted exactly for a FeatureCollection; a parse error or a `null` document crashes; anything else fails with the GeoJSON message |
| LayerImport.ImportedIdFresh | src/components/LayerImport.tsx:62 | an imported layer's id never clashes with an initial layer's id |
| LayerImport.ImportThenRemove | src/components/LayerImport.tsx:62-73 | a layer imported into the initial page and then removed leaves the initial list |
| AdminDatasetUpload.UploadFormat | src/components/AdminDatasetUpload.tsx:78 | the upper-cased text after the last dot, the whole name without a dot, `Arquivo` when that text is empty; never empty |
| AdminDatasetUpload.FormatOfLastExtension | src/components/AdminDatasetUpload.tsx:78 | only the last extension decides the format |
| AdminDatasetUpload.UploadDate | src/components/AdminDatasetUpload.tsx:77 | the timestamp up to its first `T` |
| AdminDatasetUpload.NewDataset | src/components/AdminDatasetUpload.tsx:72-81 | id from the clock, name and stored file name from the server, the chosen category, the description as typed |
| AdminDatasetUpload.HandleUpload | src/components/AdminDatasetUpload.tsx:39-81 | missing file, then empty category, then blank description, each with its message; a dataset exactly when all three pass and the server answers; otherwise the server or unexpected-error message |
| AdminDatasetUpload.CategoryChoices | src/components/AdminDatasetUpload.tsx:133 | exactly the categories whose value is not `all` |
| AdminDatasetUpload.CategoryChoicesOrder | src/components/AdminDatasetUpload.tsx:133 | the choices keep the list order |
| LocalDatasetManager.FilteredDatasets | src/components/LocalDatasetManager.tsx:28-30 | `all` shows every dataset; otherwise exactly the datasets of the selected category |
| LocalDatasetManager.FilterStable | src/components/LocalDatasetManager.tsx:28-30 | filtering is idempotent and yields a subsequence of the list |
| LocalDatasetManager.FilterAppend | src/components/LocalDatasetManager.tsx:28-30 | the filter distributes over concatenation |
| LocalDatasetManager.ShowsEmptyState | src/components/LocalDatasetManager.tsx:104 | the empty message shows exactly when the filtered list is empty |
| LocalDatasetManager.HandleDownload | src/components/LocalDatasetManager.tsx:32-39 | refused exactly when the stored file name is absent or empty; otherwise `/api/download/<filename>`, saved under the dataset name |
| LocalDatasetManager.UploadedIsDownloadable | src/components/LocalDatasetManager.tsx:32-39 | a dataset uploaded with a stored file name links to that file |
| Branding.FirstLabel | src/contexts/BrandingContext.tsx:35 | the hostname up to its first dot |
| Branding.DetectTenantId | src/contexts/BrandingContext.tsx:32-45 | the subdomain when it is non-empty, not `localhost` and the host is no dotted quad; else the stored tenant if non-empty; else `default`; never empty |
| Branding.QuadOfRuns | src/contexts/BrandingContext.tsx:38 | any four dot-separated digit runs pass the address test |
| Branding.AddressFallsBack | src/contexts/BrandingContext.tsx:38-44 | an address-like host never names a tenant |
| Branding.OutOfRangeOctetIsAnAddress | src/contexts/BrandingContext.tsx:38 | `999.1.1.1` counts as an address |
| Branding.SubdomainNamesTenant | src/contexts/BrandingContext.tsx:35-40 | a first label with a non-digit that is not `localhost` is the tenant |
| Branding.Overlay | src/contexts/BrandingContext.tsx:54 | the keys of both maps; the patch's value where it has one, the base's elsewhere |
| Branding.OverlayIdentityAndIdempotent | src/contexts/BrandingContext.tsx:123 | an empty update changes nothing; repeating an update changes nothing more |
| Branding.OverlayCompose | src/contexts/BrandingContext.tsx:123 | two updates equal one update with the merged patch |
| Branding.LoadBrandConfig | src/contexts/BrandingContext.tsx:47-68 | a decoded configuration is laid over the defaults; any failure keeps the defaults; every default key stays present |
| Branding.UpdateBrandConfig | src/contexts/BrandingContext.tsx:122-124 | only the supplied keys change |
| Branding.ParseHexColor | src/contexts/BrandingContext.tsx:75-78 | accepted exactly for six hex digits with an optional leading `#`; the channels are below 256 |
| Branding.HexToHsl | src/contexts/BrandingContext.tsx:74-76 | `0 0% 0%` exactly for a string the hex test rejects; otherwise converted from the captured channels |
| Branding.FormattedColourConverted | src/contexts/BrandingContext.tsx:74-76 | a colour written as `#rrggbb` is converted from its own channels, never the fallback |
| Branding.ParseFormatHexColor | src/contexts/BrandingContext.tsx:75-78 | every `#rrggbb` colour is accepted and read back channel by channel |
| Branding.ParseHexColorCaseInsensitive | src/contexts/BrandingContext.tsx:75 | upper-casing a colour string changes neither acceptance nor the channels |

## Left out

- Networking, databases and the browser are outside the model: `fetch`,
  `pool.query`, `response.json()`, `file.text()`, `JSON.parse`, toasts,
  DOM writes, object URLs, `localStorage` and `window.location`. Their
  results are parameters: a fetch outcome, a decoded value or a hostname.
- The clock is a parameter: `Date.now()` and `toISOString()`.
- Numbers are integers. This leaves out the MB size label and the HSL
  arithmetic of `hexToHsl` after the hex check. It also leaves out the
  fractional default `blur_opacity` (0.4), which is missing from
  `Branding.DefaultBrandConfig`.
- `toLowerCase` and `toUpperCase` are modelled on ASCII letters only.
  Other Unicode case mappings are not modelled.
- Branding.SpreadFields: spreading a string or an array copies its index
  keys in JavaScript. The model copies no keys for them; only objects
  contribute fields.
- `URLSearchParams` percent-encoding is left out. `Ckan.SearchParams`
  gives the name/value pairs before encoding, and `Ckan.DatasetUrl` puts
  the id into the path as is, which is what the source does.
- `searchDatasets` sets `loading` and clears `error` before the request.
  Those two flags are not modelled; `Ckan.AfterSearch` records only
  whether an error was set.
- The messages of errors raised by the JavaScript engine are not modelled.
  These are a `SyntaxError` from `JSON.parse`, a TypeError from reading a
  property of `null`, and the exception of a rejected `fetch` or a failed
  `response.json()`/`response.text()`. They appear as `Crashed`,
  `AccessFailed` or `RequestFailed`.
- LayerImport.HandleFileUpload: a failure of `file.text()` is not
  modelled; the parse result is a parameter.
- AdminDatasetUpload.HandleUpload: a reply without `originalname` makes
  `split` throw, which ends in the unexpected-error toast. The model types
  `originalname` as a string, so that case is not modelled.
- Form resets after a successful upload, the `uploading`/`isUploading`
  flags and the `onDatasetAdded` callback's effect on the parent list are
  not modelled.
- The upload and download endpoints are not part of this model: the back
  end shown has only the catalogue and query routes.
