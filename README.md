# roaf — a Dafny model

roaf is a command-line tool that prints the next pickup dates of the waste
collection calendar for one address. It sends one GET request through the
Norkart proxy to the provider's calendar API. The request carries the upstream
API base URI as the `server` query parameter and the address (municipality
number, street name, house number, street code) as a second block of query
parameters, plus two headers. The tool decodes the JSON list of waste fractions
("fraksjoner") it gets back and prints one line per fraction, or the enriched
list as JSON.

Two entry points do this:

- cmd/roaf/main.go, with the fraction record of internal/iroaf
  (code, display name, dates);
- the older top-level roaf.go, with its own nameless record, printing records
  0 and 1 under fixed labels.

The model covers:

- the fraction table and the record operations (`String`, `Enrich`, `JSON`);
- the query layering of `buildUrl`;
- the headers of `createGetRequest`;
- the two versions of `parseResponse`.

Go strings are byte strings (`GoStrings.GoString`, a sequence of characters
below 256). The parts of Go's library the core relies on are modelled
concretely, each in its own module:

- `time.Parse` with the one layout "2006-01-02T15:04:05", and
  `Format("2006-01-02")` (module GoTime);
- `url.QueryEscape` and `url.QueryUnescape`, `url.Values` with `Set`, `Add`
  and `Encode`, and `url.ParseQuery` (module GoUrl);
- `http.Header.Add` with its canonical key form (module GoHttp);
- the panic text that `fmt` prints when a `String` method panics (module
  GoFmt).

These library models let the contracts speak about what actually goes on the
wire and onto standard output. Here are the main facts proved:

- **Round trips.** Unescaping undoes escaping, and parsing undoes encoding.
- **The date line.** A parsed date formats back to the first ten bytes of the
  input.
- **The built query, read back.** The address block is sent without a "&"
  in front of it, so its first piece runs into the last piece of the server
  block. When no key of the proxy URL's own query sorts after "server" (in
  particular when the proxy URL has no query), that last piece is `server`'s:
  the proxy sees `server` as the base URI followed by "gatekode=" and the
  street code. The other three address parameters stay parameters of their
  own, and every parameter of the proxy's own query survives. A proxy key
  sorting after "server" would take the seam in its own value instead; that
  case is not proved.
- **Text mode.** Each record gives exactly the line its `%s` prints, in
  response order.
- **JSON mode.** The printed list is the enriched list, whose names come from
  the table.

Modules, bottom up:

| module | file |
|---|---|
| Wrappers | wrappers.dfy |
| GoStrings | gostrings.dfy |
| GoTime | gotime.dfy |
| GoUrl | gourl.dfy |
| GoHttp | gohttp.dfy |
| GoFmt | gofmt.dfy |
| Iroaf | iroaf.dfy |
| RoafRequest | request.dfy |
| RoafCmd | roafcmd.dfy |
| Roaf | roaf.dfy |

The program's observable result is `GoFmt.Outcome`: the lines written to
standard output and the exit status. The status is 0 for a normal end, 1 for
`os.Exit(1)`, and 2 for an unrecovered run-time panic.

Three points of the code are easy to misread:

- **No "&" between the two blocks.** The address block is appended to the
  encoded server block directly (cmd/roaf/main.go:112, roaf.go:102), so the
  two do not join with a separator.
- **Key order.** `Values.Encode` writes the address parameters sorted by key:
  gatekode, gatenavn, husnr, kommunenr (cmd/roaf/main.go:106-112). This is not
  the order in which they are added.
- **Unset variables.** An unset address or credential variable (ROAF_KOMMNR,
  ROAF_GATENAVN, ROAF_HUSNR, ROAF_GATEKODE, ROAF_APPKEY, ROAF_BASEURI) does
  not stop the program: `os.Getenv` gives "", and the empty value is sent.

## Model

| member | source | states |
|---|---|---|
| Iroaf.CodeTable | internal/iroaf/iroaf.go:11-24 | The codes are REST=1, PAPIR=2, METALL=4, MATAVFALL=17. Code 3 is skipped. The table names exactly these four codes, with their four display names. |
| Iroaf.NamesDistinct | internal/iroaf/iroaf.go:19-24 | Two different known codes have different display names. |
| Iroaf.Lookup | internal/iroaf/iroaf.go:34 | The comma-ok lookup reports true exactly for the four known codes. It then gives the table name. Otherwise it gives "". The name is non-empty exactly when the code is known. |
| Iroaf.String | internal/iroaf/iroaf.go:33-44 | Needs a first date, since Go indexes it unguarded. When the first date does not parse, the line is "". When it parses, the line is the looked-up name, ": " and the first ten bytes of the date as written (YYYY-MM-DD). |
| Iroaf.StringKnown | internal/iroaf/iroaf.go:34-43 | With a known code and a parsable first date, the line is the table name, ": " and the formatted date. |
| Iroaf.StringUnknown | internal/iroaf/iroaf.go:34-37 | An unknown code does not stop `String`. The name part is empty, so the line is ": YYYY-MM-DD". |
| Iroaf.StringUsesIdAndFirstDate | internal/iroaf/iroaf.go:33-44 | The line depends only on the code and the first date. The stored name and the later dates do not matter. |
| Iroaf.StringExampleDateOnly | internal/iroaf/iroaf.go:38-42 | A bare date "2024-01-15" does not match the layout, so the line is "". |
| Iroaf.ExampleParses | internal/iroaf/iroaf.go:38 | The provider's timestamp "2024-01-15T06:00:00" parses to 2024-01-15 06:00:00. |
| Iroaf.ExampleDate | internal/iroaf/iroaf.go:43 | That time formats as "2024-01-15". |
| Iroaf.Enrich | internal/iroaf/iroaf.go:48-54 | Through the pointer to slot i, the name becomes the table's name for the code, or "" for an unknown code. The code and the dates stay the same. Every other slot is unchanged. |
| Iroaf.EnrichedProperties | internal/iroaf/iroaf.go:48-54 | The enriched record keeps its code and dates. Its name is the table's, or "" for an unknown code. Enriching twice is enriching once. Enriching does not change the `String` line. |
| Iroaf.JSON | internal/iroaf/iroaf.go:57-68 | Fails exactly when the code is unknown, with that code in the error. Otherwise it gives the encoding of the record with its name filled in. The caller's record is a value and is not changed. |
| GoTime.ParseLayout | internal/iroaf/iroaf.go:38 | Whatever `time.Parse` with layout "2006-01-02T15:04:05" accepts is a valid calendar date and time of day. |
| GoTime.DateOfParse | internal/iroaf/iroaf.go:38-43 | When the parse succeeds, the input has at least ten bytes. `Format("2006-01-02")` of the result equals them: the calendar date as written. |
| GoTime.FormatLayout | internal/iroaf/iroaf.go:38 | The layout written out has 19 bytes, and its first ten are the date format. |
| GoTime.ParseFormat | internal/iroaf/iroaf.go:38 | Parsing a formatted valid time gives the same time back. |
| GoTime.ParseFormatFraction | internal/iroaf/iroaf.go:38 | A fractional second ("." or "," and digits) after the seconds is accepted, and the date and time of day read back unchanged. The model keeps no sub-second part; Go keeps it as nanoseconds, which the date format never shows. |
| GoUrl.QueryEscape | cmd/roaf/main.go:104 | An escaped value never holds "&", "=" or ";", the bytes that delimit a query. |
| GoUrl.UnescapeEscape | cmd/roaf/main.go:104 | Unescaping undoes escaping, for every byte string. |
| GoUrl.PlainText | cmd/roaf/main.go:112 | Letters, digits and "-_.~" pass through escaping and unescaping unchanged. |
| GoUrl.ParseQuery | cmd/roaf/main.go:102 | Every key the parser lists has at least one value. |
| GoUrl.ParseEncode | cmd/roaf/main.go:102-104 | Parsing the encoding of a set of values, none of them an empty list, gives the same values back. |
| GoUrl.ReadPieces | cmd/roaf/main.go:104 | Reading back the pieces of distinct new keys adds exactly those keys with their value lists. |
| GoHttp.CanonicalIdempotent | cmd/roaf/main.go:127-128 | Canonicalising a header key twice is canonicalising it once. |
| GoHttp.CanonicalIgnoresCase | cmd/roaf/main.go:127-128 | The canonical key differs from the key only in the case of its letters. |
| GoHttp.HeaderAddNew | cmd/roaf/main.go:127 | Adding under a key not yet present files the one value under the canonical key. |
| RoafRequest.BuildUrl | cmd/roaf/main.go:94-115 | Fails exactly when the proxy URL does not parse (the `os.Exit(1)` path). Otherwise only the raw query changes. The raw query becomes the encoded proxy query with `server` set to ROAF_BASEURI, followed directly by the address block. |
| RoafRequest.AddressKeys | cmd/roaf/main.go:106-112 | The four address keys in the order `Encode` writes them are gatekode, gatenavn, husnr, kommunenr. Escaping keeps each key as it is. |
| RoafRequest.AddressBlockEncoding | roaf.go:96-102 | Encoding the address parameters gives the address block: one `key=escaped value` piece per key, sorted, joined by "&". |
| RoafRequest.AddressBlockOfPlainValues | cmd/roaf/main.go:106-112 | For values that escaping keeps, the block is "gatekode=G&gatenavn=N&husnr=H&kommunenr=K". |
| RoafRequest.ServerBlockReadsBack | roaf.go:92-94 | The server block reads back as the proxy's own query with `server` replaced by the base URI. All other proxy parameters are kept. |
| RoafRequest.BuiltQueryReadsBack | cmd/roaf/main.go:102-112 | Take a proxy query whose keys all sort no later than "server". The built query reads back as follows. Every proxy parameter survives. `server` holds the base URI followed by "gatekode=" and the street code. gatenavn, husnr and kommunenr are added as parameters of their own. |
| RoafRequest.BuiltQueryOfPlainProxy | roaf.go:92-102 | For a proxy URL with no query, the raw query is the `server` piece and the address block back to back, with no "&" between them. |
| RoafRequest.PlainProxyReadsBack | roaf.go:102 | For a proxy URL with no query, the built query reads back as exactly four parameters. They are `server`, with "gatekode=" and the street code run into it, then gatenavn, husnr and kommunenr. |
| RoafRequest.KeysDistinct | cmd/roaf/main.go:103-110 | "server" and the four address keys are five different keys. |
| RoafRequest.HeaderNames | roaf.go:117-118 | "Kommunenr" is already canonical. "RenovasjonAppKey" is filed as "Renovasjonappkey". The two filed names differ. |
| RoafRequest.CreateGetRequest | cmd/roaf/main.go:119-131 | A GET request for the URL whose header holds exactly two entries: ROAF_KOMMNR under "Kommunenr" and ROAF_APPKEY under "Renovasjonappkey". Reading back under the names the program uses gives those values. |
| RoafCmd.EnrichAll | cmd/roaf/main.go:157-160 | The enrich loop leaves the array equal to the enriched list of its old contents, slot by slot. |
| RoafCmd.EnrichedListProperties | cmd/roaf/main.go:157-161 | The enriched list keeps the length, the order, the codes and the dates. Every name comes from the table. Enriching again changes nothing. |
| RoafCmd.TextLines | cmd/roaf/main.go:167-170 | One line per record, in array order. Line k is what `%s` prints for record k. |
| RoafCmd.TextLinesIgnoreNames | cmd/roaf/main.go:157-170 | The text lines of the enriched list equal those of the list as decoded. |
| RoafCmd.ParseResponse | cmd/roaf/main.go:150-172 | A decode error exits with status 1 before any output. JSON mode prints the encoding of the enriched list as one line, or nothing when marshalling fails. Text mode prints one line per record, in response order, each the record's `%s` text (`String`, or the recovered panic text for an empty date list). Both modes then exit with status 0. |
| Roaf.String | roaf.go:38-45 | Needs a first date. The line is "" when the date does not parse. Otherwise it is the first ten bytes of the date as written (YYYY-MM-DD), with no fraction name. |
| Roaf.StringIsDatePart | roaf.go:38-45 | For the same code and dates, internal/iroaf's line is the table name, ": " and roaf.go's line. When the date does not parse, both are "". |
| Roaf.ParseResponse | roaf.go:140-149 | A decode error exits with status 1 before any output. Otherwise record 0 is printed under "Restavfall: " and record 1 under "Papp/Papir: ", and the exit status is 0. With fewer than two records, the lines before the missing index are printed and the run panics (status 2). |
| Roaf.DisplayIgnoresId | roaf.go:147-148 | The labels are fixed: a record's code changes nothing it prints. |

## Left out

- Loading the environment (`loadEnv`, godotenv, `os.Getenv`) is not modelled, since it is file-system and process I/O. The environment is a map parameter, and a missing variable reads as "". cmd/roaf/main.go:76 calls `godotenv.Load()` with no argument, which always reads `.env`, whichever of `~/.roaf`, `.roaf` or `.env` was found. So when `~/.roaf` or `.roaf` exists but `.env` does not, the load fails and main.go:77-79 panics. roaf.go:50-53 panics whenever `.env` is absent. When the home directory cannot be found, `loadEnv` also prints "Unable to get user homedir" to standard output (cmd/roaf/main.go:65-68); `Outcome` does not hold that line.
- Opening the log file is left out as file-system I/O. An unset ROAF_LOGFILE makes `os.OpenFile("")` fail, and the program panics before building any request (cmd/roaf/main.go:41-44, roaf.go:55-58).
- An unset NORKART_PROXY is not traced past `buildUrl`. The model's `BuildUrl` takes `url.Parse` as a parameter. Go's `url.Parse("")` succeeds with an empty URL, and the request then fails in `doRequest` (exit status 1, cmd/roaf/main.go:135-139), which is not modelled.
- `configureLogging` and every `slog` call are left out as side effects with no logic.
- `doRequest` and the transport of `http.NewRequest` are left out, since they are network I/O. The response body reaches `parseResponse` already decoded.
- Byte-level `json.Unmarshal` is left out: the decoded list is an `Option` input, where None is a decode error.
- `json.Marshal` is not written out. It is a function parameter: of a record in `Iroaf.JSON`, of the list in `RoafCmd.ParseResponse`.
- The `-j` flag handling is left out; the mode is a boolean parameter.
- URLs are reduced to their raw query and an opaque remainder. `url.Parse` is a function parameter, and the `String()` and re-parse in `createGetRequest` are identity. The `http.NewRequest` error path is therefore not modelled.
- The `fmt.Errorf` calls whose results are discarded (internal/iroaf/iroaf.go:36,40,51; roaf.go:41; cmd/roaf/main.go:163) are no-ops and are left out.
- The global `datolst` is a local array in cmd/roaf and a local sequence in roaf.go, since nothing else reads it.
- Go's `int` is unbounded here. Fraction codes are compared, never computed with.
- Roaf.String, Iroaf.String: `time.Parse` is modelled for the program's one layout only. Its month and day names, zones and other layouts are left out.
- GoTime.ParseFormatFraction: the fraction is accepted but not kept. Go keeps it as nanoseconds of the parsed time; DateTime has no sub-second field, because the program prints only `Format("2006-01-02")`, which never shows it.
- GoHttp.CanonicalHeaderKey: its contract states only that the length is kept. What it does is stated by CanonicalIdempotent, CanonicalIgnoresCase and HeaderNames.
