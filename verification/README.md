# WhatsApp product-date reminders, modelled in Dafny

The system stores product reminders (`produto`, the product's name, and
`data`, the date to be reminded on) in a Firestore collection `lembretes`,
and once a day at 09:00 looks for the undelivered reminders dated ten days
ahead. For each one it sends a WhatsApp message to a fixed number and marks
the document `enviado` (sent).

This project models that core as pure functions over an in-memory store,
a map from document id to `{produto, data, enviado}`:

- `wrappers.dfy`, `digits.dfy`, `js_value.dfy`: `Option`, decimal digit
  strings, and the scalar JSON values of a request body with JavaScript
  truthiness and string conversion.
- `civil_date.dfy`: Gregorian dates, `AddDays` (the month and year
  roll-over of `setDate(getDate() + 10)`), and `DayNumber`, an independent
  count of days since 0001-01-01 that the roll-over is proved against.
- `iso_format.dfy`: the `YYYY-MM-DD` key produced by
  `toISOString().split("T")[0]`, and a parser that reads it back.
- `reminders.dfy`: the store, `POST /lembrete` intake, the due filter
  (`data == key`, `enviado == false`) and the scan's state transition.
- `whatsapp.dfy`: `enviarWhatsApp`, with its recipient, its message
  template and its not-ready and send-failure cases.
- `reminder_check.dfy`: `verificarLembretes`: the target key, the query,
  and the loop that sends and marks.
- `lifecycle.dfy`: runs of requests and scans, and the at-most-once
  property across scans.
- `schedule.dfy`: the cron expression `0 9 * * *`.

`enviarWhatsApp` catches both the not-ready case and a rejected `sendText`,
and returns normally (index.js:112-121). The scan then always marks the
document (line 76). So a reminder whose send failed, or that found the
client not ready, is marked `enviado` and never retried. The contract of
`CheckReminders` says this: the resulting store does not depend on `ready`
or `sendFails`. The code has no guard against overlapping scans, no
per-send timeout and no conditional update, and the model has none either.
The model takes every `sendText` call to resolve or reject; a call that
never settles would leave its document unmarked (see "Left out").

## Model

| member | source | states |
|---|---|---|
| JsValues.Truthy | index.js:29 | a field is rejected exactly when it is one of JavaScript's five falsy scalars: absent, `null`, `false`, `0` or `""` |
| JsValues.ToText | index.js:110 | a string is inserted as itself, and a truthy value never prints as empty text |
| Reminders.CreateReminder | index.js:25-44 | 400 exactly when `produto` or `data` is falsy; 500 exactly when both are present and the write fails; in both error cases the store is unchanged; otherwise 200 with the new id, and the store gains exactly that one document `{produto, data, enviado: false}` with every other document kept |
| Reminders.CreatePreservesWellFormed | index.js:29-38 | every document in the store has truthy `produto` and `data`, and intake keeps it so |
| Reminders.DueIds | index.js:57-61 | the query returns exactly the stored documents whose `data` is the key string and whose `enviado` is false; a delivered document is never returned |
| Reminders.ScanTransition | index.js:68-79 | after a scan the same documents exist with the same `produto` and `data`, and a document is marked exactly when it was marked before or its `data` is the scan's key |
| Reminders.CreatedIsDueOnItsDate | index.js:34-60 | a freshly created reminder is selected by the scan whose key equals its `data` string |
| Reminders.ScanTransitionFrame | index.js:57-76 | a scan keeps every document; unselected documents are unchanged; a selected one changes only `enviado`, which becomes true; `enviado` never goes from true to false |
| Reminders.ScanTransitionSettles | index.js:57-76 | after a scan nothing is due for the same key, so a second scan with that key is a no-op |
| Reminders.EmptySelectionNoChange | index.js:63-66 | when no document is due, the scan leaves the store unchanged |
| Reminders.ScanPreservesWellFormed | index.js:76 | the scan's update keeps the intake invariant |
| CivilDate.AddDays | index.js:51 | the day-of-month overflow rolls over months and years and always lands on a real calendar date |
| CivilDate.AddDaysNumber | index.js:49-51 | adding n days moves the independent day count forward by exactly n |
| CivilDate.DayNumberInjective | index.js:49-51 | distinct valid dates have distinct day counts |
| CivilDate.AddDaysExact | index.js:49-51 | a valid date is `AddDays(d, n)` if and only if its day count is that of `d` plus n |
| IsoFormat.FormatIso | index.js:54 | the key ends in `-MM-DD` with two digit characters each for month and day, and has exactly 10 characters if and only if the year is 0-9999; `FormatParseRoundTrip` states that its fields hold the date |
| IsoFormat.FormatParseRoundTrip | index.js:54 | parsing the formatted key gives back the date it was made from |
| IsoFormat.FormatInjective | index.js:54-59 | two dates have the same key if and only if they are the same date, so the string comparison of the query compares dates |
| IsoFormat.FormatShape | index.js:54 | for years 0-9999 the key has 10 characters, dashes at positions 4 and 7, and zero-padded digit fields holding year, month and day |
| WhatsApp.MessageText | index.js:110 | the text between the template's fixed prefix and suffix is exactly the text of `produto` |
| WhatsApp.MessageRoundTrip | index.js:110 | the message holds the text of `produto` verbatim between the fixed template's prefix and suffix |
| WhatsApp.MessageInjective | index.js:110 | two products give the same message exactly when they print as the same text, so distinct names give distinct messages while `5` and `"5"` collide |
| WhatsApp.SendWhatsApp | index.js:107-122 | no send when the client is not ready; otherwise one message to `55XXXXXXXXXX@c.us` whose embedded product is `produto`; reported as failed exactly when the send rejects; it always returns normally |
| ReminderCheck.TargetDate | index.js:49-51 | the target is a valid date whose day count is today's plus 10 |
| ReminderCheck.TargetKey | index.js:54 | the key parses back to the target date |
| ReminderCheck.QueryDue | index.js:57-61 | the snapshot lists, each once, exactly the documents with `data` equal to the key and `enviado` false |
| ReminderCheck.ProcessSnapshot | index.js:68-79 | each snapshot document gets one send attempt, in snapshot order, and is then marked delivered whatever the attempt reported |
| ReminderCheck.CheckReminders | index.js:47-83 | a failed query changes nothing; otherwise the store becomes the scan transition for today's key, whatever readiness and send results are; an empty selection does nothing; each due document gets exactly one attempt, and no other document gets one |
| ReminderCheck.SelectedMessageNamesProduct | index.js:29-110 | in a store filled by intake, the message sent for any selected document carries a non-empty product text |
| ReminderCheck.DueIsTenDaysAhead | index.js:49-61 | a selected reminder is undelivered and its `data` is the formatted key of the date exactly ten days after today; another spelling of that date is not selected |
| ReminderCheck.TenDaysAheadIsDue | index.js:49-61 | an undelivered reminder stored with the key of the date ten days after today is selected |
| ReminderCheck.EndOfMonthExample | index.js:49-54 | a scan on 2024-05-31 looks for "2024-06-10", and the next day's scan does not |
| ReminderCheck.RollOverExamples | index.js:51 | year-end roll-over, and February in the leap years 2024 and 2000 and the common years 2023 and 1900 |
| Lifecycle.DeliveredStaysDelivered | index.js:60-76 | over any run of requests and scans, a delivered reminder is never changed again |
| Lifecycle.NeverReselected | index.js:57-76 | a delivered reminder is in no later scan's selection |
| Lifecycle.AtMostOnce | index.js:57-79 | no reminder is selected, and so sent, by two scans of a run |
| Schedule.ScheduleText | index.js:86 | the modelled schedule is the expression `0 9 * * *` |
| Schedule.FiresDailyAtNine | index.js:86 | the schedule fires at a minute if and only if it is 09:00, on any day |
| Schedule.FiresOncePerDay | index.js:86 | exactly one minute of each day fires, 540 minutes after midnight |

## Left out

- The Express server, its routes, `res.json` and `app.listen` (index.js:16-22, 124-128): HTTP I/O. Intake is the function `CreateReminder` returning a response value.
- Firebase initialisation and credentials (index.js:9-15): configuration. Firestore is a map. The id `add` generates is a parameter that must be new to the store. Whether the query or the write rejects is a boolean parameter.
- The venom-bot session (index.js:91-104): a foreign client. Whether it exists is the boolean `ready`, and whether `sendText` rejects is `sendFails`.
- `snapshot.forEach(async ...)` runs its callbacks without awaiting them, so an update that rejects escapes the outer `try/catch` (index.js:68-82). The model runs the callbacks one after another, and every update succeeds.
- Time zones: `setDate`/`getDate` use local time and `toISOString` uses UTC (index.js:51-54), so on some hosts the key is a day off. The model uses a single civil date.
- The two `new Date()` calls (index.js:49-50) could fall on different days around midnight. The model takes one `today`.
- JavaScript's `Date` only covers 100,000,000 days either side of 1970, and the model's years are unbounded. Outside 0-9999 the key uses the expanded sign-and-six-digit year.
- Request fields that are objects or arrays, `NaN` and fractional numbers: the model's `Value` covers only the JSON scalars, with integers for numbers.
- JsValues.ToText: numbers are limited to integers below 10^21 in magnitude, which JavaScript prints in plain decimal. A larger number such as `1e21` is printed by `${produto}` in exponent form (`1e+21`), and the model cannot hold it. Integers above 2^53, which a JavaScript number cannot hold exactly, are still admitted.
- Reminders.CreateReminder: the request body is taken to be a parsed JSON object, so a missing field reads as `undefined` and gets 400. With a body parser that leaves `req.body` undefined when no JSON body is sent, the destructuring at index.js:27 throws and the answer is 500 instead.
- The cron library's own parsing and timing (index.js:86): only the meaning of the literal expression is modelled.
- All console logging, and the unused `fs` and `axios` imports.
- ReminderCheck.ProcessSnapshot: takes every `sendText` call to resolve or reject. A call that never settles leaves its callback waiting at index.js:73, line 76 never runs, and that document keeps `enviado: false`; the next day's key differs, so it is never sent.
- ReminderCheck.CheckReminders: takes every `sendText` call to resolve or reject, as ProcessSnapshot does; a send that never settles leaves its document unmarked, which the contract does not cover.
- ReminderCheck.QueryDue: leaves the snapshot's order unspecified. Firestore returns documents in ascending id order, but the scan's outcome does not depend on the order.
