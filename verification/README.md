# Job notification formatter — a Dafny model

The drone-yard pipeline runs photogrammetry jobs on AWS Batch and publishes a notification
when a Batch job changes state (for example to `SUBMITTED`, `STARTING`, `SUCCEEDED` or
`FAILED`). The notification handler in `functions/sns-handler/index.js` is the only computed
behaviour among the source files modelled here. It builds two strings from the state-change event:

- the message `"Job Source: " + bucket + "/" + key`;
- the subject `"Job " + toTitleCase(status)`.

`toTitleCase` returns `null` unchanged. On a string, it replaces every match of the global
regular expression `\w\S*` with the match's first character upper-cased and the rest lower-cased.

The model has six modules:

- `Wrappers` (`wrappers.dfy`): `Option`. `None` stands for JavaScript `null`.
- `Ascii` (`ascii.dfy`): the classes `\w` and `\s`, and the case maps, restricted to ASCII.
- `TitleCase` (`title_case.dfy`): `toTitleCase` written literally as the global replacement.
  `MatchEnd` is the greedy `\S*`, `Capitalize` is the callback and `ReplaceWords` is the search
  loop of `String.prototype.replace`.
- `TitleScan` (`title_scan.dfy`): the same function written a second way, as a two-state
  left-to-right scan that carries an in-match flag. It is proved equal to the replacement.
- `TitleCaseLaws` (`title_case_laws.dfy`): a third, positional reference definition, `Expected`.
  It says what happens to each character, based on whether a word character comes before it in
  its whitespace-free run. This module proves that title-casing matches `Expected`, and from
  that proves the per-run casing laws, whitespace preservation, and idempotence.
- `SnsHandler` (`sns_handler.dfy`): the event and publish-parameter datatypes, the message and
  subject builders, and the handler. It also has a parser that recovers bucket and key from a
  message, plus worked events.

A null status never gives a null subject. `toTitleCase(null)` returns `null`, but the
template literal on line 19 renders it as the text `null`, so the subject is `"Job null"`.
`Interpolate`, `FormatSubject` and `NullStatusScenario` state this, and `NullSubjectIsDistinct`
shows that no string status produces the same subject.

## Model

| member | source | states |
|---|---|---|
| Ascii.IsWordChar | functions/sns-handler/index.js:9 | `\w` holds only ASCII characters, none of them whitespace |
| Ascii.IsWhitespace | functions/sns-handler/index.js:9 | `\s` on ASCII is exactly space, tab, line feed, vertical tab, form feed and carriage return, all at or below the space |
| Ascii.ToUpper | functions/sns-handler/index.js:9 | only lower-case letters change, each to the upper-case letter at the same alphabet position; the result is never a lower-case letter; `\w` and `\s` membership are kept |
| Ascii.ToLower | functions/sns-handler/index.js:9 | only upper-case letters change, each to the lower-case letter at the same alphabet position; the result is never an upper-case letter; `\w` and `\s` membership are kept |
| Ascii.StrUpper | functions/sns-handler/index.js:9 | `toUpperCase` keeps the length and maps every character independently |
| Ascii.StrLower | functions/sns-handler/index.js:9 | `toLowerCase` keeps the length and maps every character independently |
| TitleCase.MatchEnd | functions/sns-handler/index.js:9 | the greedy `\S*` stops at the first whitespace at or after its start, or at the end of the string, and covers no whitespace |
| TitleCase.Capitalize | functions/sns-handler/index.js:9 | the callback keeps the length, upper-cases position 0 and lower-cases every later position |
| TitleCase.ReplaceWords | functions/sns-handler/index.js:9 | the global replacement keeps the length and leaves every whitespace character where it was |
| TitleCase.TitleText | functions/sns-handler/index.js:9-10 | title-casing a string keeps its length and its whitespace |
| TitleCase.ToTitleCase | functions/sns-handler/index.js:5-11 | the result is null exactly when the argument is null, and a string keeps its length |
| TitleScan.Step | functions/sns-handler/index.js:9 | in the two-state reading of the pattern, a word character opens a match, whitespace closes it, and any other character leaves the state unchanged |
| TitleScan.ScanFrom | functions/sns-handler/index.js:9 | the scan from any position and state keeps the length and each character's `\w`/`\s` class, and copies whitespace |
| TitleScan.Scan | functions/sns-handler/index.js:9-10 | the whole-string scan keeps the length, each character's `\w` class and every whitespace character, and upper-cases a leading word character |
| TitleScan.Emit | functions/sns-handler/index.js:9 | the scanner's output character has the same `\w`/`\s` class as its input, and whitespace is copied |
| TitleScan.EmitIdempotent | functions/sns-handler/index.js:9 | writing a character twice in the same scanner state gives the same result as writing it once |
| TitleScan.ScanInsideMatch | functions/sns-handler/index.js:9 | inside a match, the scan lower-cases up to the next whitespace and then continues outside a match |
| TitleScan.CapitalizeSlice | functions/sns-handler/index.js:9 | the callback on a match is its first character upper-cased followed by the rest lower-cased |
| TitleScan.ReplaceWordsIsScan | functions/sns-handler/index.js:9 | the global replacement from any position equals the two-state scan started outside a match |
| TitleScan.TitleTextIsScan | functions/sns-handler/index.js:9-10 | `toTitleCase` on a string equals the two-state scan |
| TitleCaseLaws.InMatchIffWordBefore | functions/sns-handler/index.js:9 | the scanner is inside a match before position i exactly when a word character precedes i with no whitespace in between |
| TitleCaseLaws.ScanAt | functions/sns-handler/index.js:9 | the scan writes at each position what the in-match flag at that position dictates |
| TitleCaseLaws.TitleTextByFlag | functions/sns-handler/index.js:9-10 | title-casing writes at each position what the in-match flag at that position dictates |
| TitleCaseLaws.TitleTextMatchesReference | functions/sns-handler/index.js:9-10 | title-casing keeps the length and agrees at every position with the regular-expression reference `Expected` |
| TitleCaseLaws.WhitespacePreserved | functions/sns-handler/index.js:9-10 | whitespace is unchanged in place, and no character gains or loses its `\w` or `\s` class |
| TitleCaseLaws.RunHead | functions/sns-handler/index.js:9-10 | in a whitespace-free run, characters before the first word character are kept and the first word character is upper-cased |
| TitleCaseLaws.RunTail | functions/sns-handler/index.js:9-10 | every character after a word character in the same whitespace-free run is lower-cased |
| TitleCaseLaws.NoWordUnchanged | functions/sns-handler/index.js:9 | a string with no word character (empty, blank, punctuation only) is returned unchanged |
| TitleCaseLaws.SameFlags | functions/sns-handler/index.js:9-10 | the in-match flags over a string and over its title-cased form agree |
| TitleCaseLaws.Idempotent | functions/sns-handler/index.js:9-10 | title-casing twice equals title-casing once |
| TitleCaseLaws.SingleToken | functions/sns-handler/index.js:9-10 | a whitespace-free string that starts with a word character is one match: its first character upper-cased, the rest lower-cased |
| SnsHandler.FormatMessage | functions/sns-handler/index.js:18 | the message is the prefix `Job Source: `, then the bucket verbatim, then `/`, then the key verbatim, with the length adding up |
| SnsHandler.ParseMessage | functions/sns-handler/index.js:18 | a parsed message re-formats to itself, and the parsed bucket has no slash |
| SnsHandler.MessageRoundTrip | functions/sns-handler/index.js:18 | for a bucket without a slash, parsing the message gives back exactly the bucket and the key |
| SnsHandler.MessageNotEscaped | functions/sns-handler/index.js:18 | nothing is escaped: bucket `a/b` with key `c` gives the same message as bucket `a` with key `b/c` |
| SnsHandler.Interpolate | functions/sns-handler/index.js:19 | the template literal renders a string verbatim and `null` as the text `null` |
| SnsHandler.FormatSubject | functions/sns-handler/index.js:19 | the subject starts with `Job `; a null status gives `Job null`; after the prefix, a string status appears title-cased, at its own length |
| SnsHandler.SubjectMatchesReference | functions/sns-handler/index.js:9-19 | for every string status, each subject character after `Job ` is the status character transformed as the positional title-casing reference prescribes |
| SnsHandler.NullSubjectIsDistinct | functions/sns-handler/index.js:6-9 | no string status produces the subject `Job null` of a null status |
| SnsHandler.Handle | functions/sns-handler/index.js:17-21 | the topic is passed through, and message and subject carry their fixed prefixes |
| SnsHandler.HandleFromParts | functions/sns-handler/index.js:17-21 | the publish parameters are the formatted message, the formatted subject and the topic |
| SnsHandler.StatusSubject | functions/sns-handler/index.js:9-10 | a one-word status in capitals appears in the subject with only its first letter upper-case |
| SnsHandler.SubmittedSubject | functions/sns-handler/index.js:19 | status `SUBMITTED` gives the subject `Job Submitted` |
| SnsHandler.StartingSubject | functions/sns-handler/index.js:19 | status `STARTING` gives the subject `Job Starting` |
| SnsHandler.SucceededSubject | functions/sns-handler/index.js:19 | status `SUCCEEDED` gives the subject `Job Succeeded` |
| SnsHandler.FailedSubject | functions/sns-handler/index.js:19 | status `FAILED` gives the subject `Job Failed` |
| SnsHandler.BatchStatusSubjects | functions/sns-handler/index.js:9-10 | the four Batch job statuses title-case to `Submitted`, `Starting`, `Succeeded` and `Failed` |
| SnsHandler.SucceededScenario | functions/sns-handler/index.js:17-21 | a successful job on `drone-photos`/`site42/dispatch` publishes `Job Source: drone-photos/site42/dispatch` with subject `Job Succeeded` |
| SnsHandler.FailedScenario | functions/sns-handler/index.js:17-21 | a failed job on `b`/`k` publishes `Job Source: b/k` with subject `Job Failed` |
| SnsHandler.NullStatusScenario | functions/sns-handler/index.js:17-21 | a null status still publishes, with message `Job Source: b/k` and subject `Job null` |

## Left out

- Ascii.ToUpper and Ascii.ToLower model only ASCII. JavaScript's Unicode case mapping changes non-ASCII letters and can change a string's length. Here every non-ASCII character is kept as is.
- Ascii.IsWhitespace has only the ASCII members of `\s`. JavaScript also counts non-ASCII spaces such as U+00A0 and U+2028, and here those are treated as non-whitespace.
- The publish call (`sns.publish`), the completion callback (`context.done`) and logging (`console.log`), lines 1-3, 14-15 and 23, are network I/O and side effects. The handler returns the publish parameters instead.
- The topic ARN comes from `process.env.SNS_ARN` (line 20). Here it is the `topicArn` parameter.
- An absent (`undefined`) status is not modelled. Line 6 tests only for `null`, so `undefined` would throw at line 9. `None` means `null` only.
- Bucket and key are always strings here. An absent field would be rendered as `undefined` by the template literal on line 18.
- The job-submission handler (`dispatch_batch_job.handler`, also deployed from `functions/dispatch-handler`) is not part of this model, so job submission is not modelled.
- `stacks/MyStack.ts`, `lib/winyama_drone_yard-stack.ts`, `sst.config.ts` and the `bin/` entry points are left out. They declare static infrastructure (network, roles, batch environment, queue, job definition, bucket, deployment) and compute nothing. The behaviour they configure is enforced by the cloud services, not by code: the `dispatch` key-suffix trigger, the `Ref::bucket`/`Ref::key` command substitution and the 24-hour job timeout.
