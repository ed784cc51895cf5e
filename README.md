# Where is Ryan: the `/whereisryan` status reply

A Dafny model of the decision logic of the Discord bot's `/whereisryan`
slash command (`src/index.js`). Once the VATSIM data feed has been fetched,
the handler:

- looks up the configured pilot: the first record in the feed whose CID,
  rendered as a decimal string, equals the configured `VATSIM_CID`;
- replies with a field-less "Not Online" embed when nobody matches;
- otherwise computes the time since logon, split into whole hours (the
  quotient rounded down) and whole minutes of what remains, rendered as
  `"<h>h <m>m"`;
- shortens a filed route longer than 200 characters to its first 200
  characters followed by `"..."`;
- builds the status embed. It has seven mandatory fields in a fixed order:
  Route, Aircraft, Altitude, Ground Speed, Heading, Transponder and Flight
  Time. Each uses the fallbacks `'N/A'`, `'No flight plan filed'` and
  `'Unknown'`. The optional "Filed Altitude" and "Filed Route" fields come
  after them, followed by a position footer.

Files:

- `decimal.dfy` (module `Decimal`) renders integers the way JavaScript's
  `toString` and template literals do, and proves the rendering invertible.
- `flight_status.dfy` (module `FlightStatus`) holds the feed records as
  datatypes and the handler's pure computations as functions. Lemmas state
  the lookup, flight-time, truncation and field-list properties.
- `reply_embed.dfy` (module `ReplyEmbed`) models the discord.js
  `EmbedBuilder` as a class whose methods update its fields in place. It
  also holds the two methods that build the reply step by step, as the
  handler does. Both are proved equal to the pure specification in
  `FlightStatus`.

JavaScript's `||` on strings treats only `""` as falsy, which is what
`OrElse` models. An absent `flight_plan` is `None`. JavaScript's `%`
truncates toward zero, so `JsRemainder` models it for negative dividends too.
`Math.floor(x / b)` with a positive divisor is Dafny's Euclidean `/`.

## Model

| member | source | states |
|---|---|---|
| `Decimal.NatToString` | src/index.js:28 | A CID renders as a non-empty string of digits with no leading zero. It is a single digit exactly when the number is below 10. |
| `Decimal.ParseNatToString` | src/index.js:28 | Parsing the rendered digits gives back the number, so `toString` loses nothing. |
| `Decimal.NatToStringInjective` | src/index.js:28 | Two CIDs with the same rendering are the same number. |
| `Decimal.IntToString` | src/index.js:47 | The rendering of an integer starts with a minus sign exactly when the integer is negative; the rest is digits. |
| `Decimal.IntToStringValue` | src/index.js:47 | Those digits are the numeral of the integer's magnitude: they parse back to the integer, or to its negation after the minus sign. |
| `Decimal.IntToStringOmits` | src/index.js:47 | A rendered integer holds no character other than a minus sign and digits. |
| `Decimal.IntToStringInjective` | src/index.js:47 | Two integers with the same rendering are equal. |
| `FlightStatus.OrElse` | src/index.js:58 | The or-fallback `a or fallback` is `a` when `a` is non-empty and `fallback` otherwise. The result is non-empty when either input is. |
| `FlightStatus.CidMatches` | src/index.js:28 | The match test: the decimal rendering of the pilot's CID equals the configured string. |
| `FlightStatus.FindPilot` | src/index.js:28-30 | The result is "none" exactly when no pilot's rendered CID equals the target. Otherwise it is a pilot of the list whose rendered CID equals the target. |
| `FlightStatus.FindPilotIsFirst` | src/index.js:28 | When position k is the first match, the lookup returns the pilot at position k (`find` keeps list order). |
| `FlightStatus.CidMatchesNumber` | src/index.js:28 | When the configured CID is the numeral of n, a pilot matches exactly when its numeric CID is n. |
| `FlightStatus.NonNumeralNeverMatches` | src/index.js:28 | A configured CID that is empty, holds a non-digit or has a leading zero matches no pilot. |
| `FlightStatus.JsRemainder` | src/index.js:46 | `%` ranges over 0 to b-1 for a non-negative dividend, and over -(b-1) to 0 for a negative one. |
| `FlightStatus.JsRemainderDivision` | src/index.js:46 | The dividend equals the truncated quotient times the divisor plus the truncated remainder. |
| `FlightStatus.Elapsed` | src/index.js:44 | The elapsed time is the current time minus the logon time, in milliseconds. |
| `FlightStatus.SplitFlightTime` | src/index.js:45-46 | Hours are the elapsed time divided by 3600000, rounded down. Minutes are JavaScript's remainder by 3600000 divided by 60000, rounded down. Its properties are stated by the four lemmas below. |
| `FlightStatus.FlightTimeText` | src/index.js:47 | The hours, `h`, a space, the minutes and `m`. It loses nothing, by `FlightTimeTextInjective`. |
| `FlightStatus.FlightTimeBounds` | src/index.js:44-46 | For elapsed ms >= 0: hours >= 0, 0 <= minutes < 60, and h*3600000 + m*60000 <= ms < h*3600000 + (m+1)*60000. |
| `FlightStatus.FlightTimeUnique` | src/index.js:44-46 | Every pair of whole hours and minutes below 60 that brackets the elapsed time this way is the split the handler computes. |
| `FlightStatus.FlightTimeNegative` | src/index.js:44-46 | A logon in the future gives negative hours and minutes from -60 to 0. |
| `FlightStatus.FlightTimeTextInjective` | src/index.js:47 | Two hour and minute pairs with the same text are equal, for negative values too. |
| `FlightStatus.FlightTimeTextDetermines` | src/index.js:44-47 | For any two elapsed times, equal `"<h>h <m>m"` texts mean equal hours and equal minutes. |
| `FlightStatus.TruncateRoute` | src/index.js:106-108 | A route of at most 200 characters is unchanged. A longer one becomes exactly 203 characters: its own first 200 characters, then `"..."`. |
| `FlightStatus.TruncateRouteLength` | src/index.js:106-108 | The shown route has at most 203 characters. It is longer than 200 exactly when the filed route is, and empty exactly when the filed route is. |
| `FlightStatus.TruncateRouteIdempotent` | src/index.js:106-108 | Shortening an already shortened route gives the same string. |
| `FlightStatus.RouteSummary` | src/index.js:57-59 | The departure and the arrival, each defaulting to `'N/A'`, joined by ` -> `; `'No flight plan filed'` without a plan. Stated by the two lemmas below. |
| `FlightStatus.RouteSummaryNoPlanIff` | src/index.js:57-59 | The Route field reads `'No flight plan filed'` exactly when there is no flight plan. Any summary of a plan holds the arrow. |
| `FlightStatus.RouteSummaryFallbacks` | src/index.js:57-59 | A summary starts with the departure, or with `'N/A'` when the departure is empty. It ends with the arrival, or with `'N/A'` when the arrival is empty. |
| `FlightStatus.AircraftText` | src/index.js:64 | The field is `aircraft_short` if non-empty, else `aircraft_faa` if non-empty, else `'Unknown'`. It is `'Unknown'` whenever there is no plan, and never empty. |
| `FlightStatus.TransponderText` | src/index.js:84 | The field is the transponder code when non-empty, else `'N/A'`. It is never empty. |
| `FlightStatus.HasFiledAltitude` | src/index.js:96 | The altitude field is added when a plan is filed and its altitude is non-empty. |
| `FlightStatus.HasFiledRoute` | src/index.js:105 | The route field is added when a plan is filed and its route is non-empty. |
| `FlightStatus.MandatoryFields` | src/index.js:54-92 | The first `addFields` call adds exactly seven fields. Their names are stated by `MandatoryFieldNames` and their values by `MandatoryFieldValues`. |
| `FlightStatus.MandatoryFieldNames` | src/index.js:54-92 | Those fields are, in order: Route, Aircraft, Altitude, Ground Speed, Heading, Transponder, Flight Time. |
| `FlightStatus.FiledAltitudeFields` | src/index.js:96-102 | The guarded altitude call adds at most one field. Its value is stated by `OptionalFieldValues`. |
| `FlightStatus.FiledRouteFields` | src/index.js:105-114 | The guarded route call adds at most one field. |
| `FlightStatus.StatusFields` | src/index.js:54-114 | The fields in the order the builder receives them: the mandatory ones, then the filed altitude, then the filed route. |
| `FlightStatus.MandatoryNamesDistinct` | src/index.js:54-92 | The seven mandatory names are pairwise different, so each can be looked up by name. |
| `FlightStatus.MandatoryFieldValues` | src/index.js:54-92 | Looked up by name in the embed, Route holds the route summary and Aircraft the aircraft text. Altitude, Ground Speed and Heading hold the rendered numbers with ` ft`, ` kts` and `°` appended. Transponder holds the transponder text and Flight Time the flight-time text of now minus logon. |
| `FlightStatus.OptionalFieldValues` | src/index.js:96-114 | Looked up by name, Filed Altitude holds the filed altitude when one is filed and is absent otherwise. Filed Route holds the shortened filed route when one is filed and is absent otherwise. |
| `FlightStatus.StatusFieldNames` | src/index.js:54-114 | The field names are the seven mandatory ones, then "Filed Altitude" when an altitude is filed, then "Filed Route" when a route is filed. |
| `FlightStatus.OptionalNamesNotMandatory` | src/index.js:54-114 | An optional field name never clashes with a mandatory one. |
| `FlightStatus.OptionalFieldsPresence` | src/index.js:96-114 | "Filed Altitude" appears exactly when the plan has a non-empty altitude. "Filed Route" appears exactly when the plan has a non-empty route. |
| `FlightStatus.StatusFieldCount` | src/index.js:54-114 | The embed has 7 to 9 fields, and its first seven are the mandatory ones. |
| `FlightStatus.StatusFieldInline` | src/index.js:54-114 | A field is inline exactly when it is neither Route nor Filed Route. |
| `FlightStatus.StatusFieldValues` | src/index.js:54-114 | Every field value is non-empty. The Filed Route field shows the shortened route, which has at most 203 characters, so the `'N/A'` fallback of line 111 is never used. |
| `FlightStatus.ReplyCases` | src/index.js:28-53 | The reply has no fields exactly when no pilot matches, and is then the "Not Online" embed. Otherwise its description names the configured CID. |
| `FlightStatus.NotOnlineEmbed` | src/index.js:31-35 | Titled "Not Online", with a description naming the configured CID, no fields and no footer. |
| `FlightStatus.StatusEmbed` | src/index.js:50-119 | Titled with the callsign, with a description naming the CID, the status fields and the position footer. |
| `FlightStatus.Reply` | src/index.js:28-121 | The not-online embed when the lookup finds nobody, else the status embed of the pilot it finds. Stated by `ReplyCases`. |
| `ReplyEmbed.EmbedBuilder.constructor` | src/index.js:50 | A new builder is empty. |
| `ReplyEmbed.EmbedBuilder.SetTitle` | src/index.js:52 | Sets the title and nothing else. |
| `ReplyEmbed.EmbedBuilder.SetDescription` | src/index.js:53 | Sets the description and nothing else. |
| `ReplyEmbed.EmbedBuilder.AddFields` | src/index.js:97 | Appends the given fields, in order, after those already present. Nothing else changes. |
| `ReplyEmbed.EmbedBuilder.SetFooter` | src/index.js:117-119 | Sets the footer and nothing else. |
| `ReplyEmbed.BuildStatusEmbed` | src/index.js:50-119 | The step-by-step build, with its guarded `addFields` calls, yields exactly the status embed specified by `FlightStatus.StatusEmbed`. |
| `ReplyEmbed.Respond` | src/index.js:28-121 | The reply built is the specified `Reply`. It has no fields exactly when no pilot matches. |

## Left out

- Fetching the data feed, the `response.ok` check, JSON parsing and the catch-all "Error" embed (lines 21-27, 123-133) are network and framework plumbing. The model starts from the parsed list of pilots.
- The Discord client, `deferReply`, `editReply`, `login`, the `ready` log line and the environment-variable checks (lines 1-19, 137-148) are I/O. `src/register-commands.js` is slash-command registration over the REST API and is not part of this model.
- Parsing `logon_time` with `new Date(...)` and reading the clock (lines 42-43) are left out. The logon time and the current time are integer milliseconds, passed in as parameters.
- `toLocaleString` of the altitude (line 69), the rendering of ground speed and heading (lines 74, 79) and `toFixed(4)` of latitude and longitude (line 118) are floating-point and locale formatting. Their results are opaque strings in the pilot record.
- Embed colours and `setTimestamp` are cosmetic and are not modelled.
- Decimal.IntToString: does not model JavaScript's exponent notation for magnitudes of 1e21 and above, nor the loss of precision of doubles beyond 2^53. Elapsed milliseconds and VATSIM CIDs are far below both.
- FlightStatus.TruncateRoute: counts Unicode characters, while JavaScript's `length` and `substring` count UTF-16 code units. For a route with characters outside the Basic Multilingual Plane the two cuts differ.
- The discord.js limits on embeds (the number of fields, the length of a field value) are not modelled. Such limits would be enforced by the library, not by the handler.
