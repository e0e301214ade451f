# Contact-us bundle: a verified model of the submission pipeline

This project models the core of a Symfony bundle that provides a contact form. A submitted form goes through these stages:

- three spam checks, run in a fixed order:
  - a honeypot field that must stay empty;
  - a minimum fill-in time, read from a hidden timestamp field;
  - a per-visitor rate limit that fails open when no limiter is configured.
- a vetoable "submitted" event.
- one of two branches:
  - **email verification** (only when verification is enabled and the storage mode is `both`), which:
    - stores the message unverified under a random 64-character hex token;
    - mails the token to the sender.
  - **standard**, which stores and/or mails the message depending on the storage mode (`email`, `database`, `both`).

`verifyMessage` finds a stored message by its token and rejects it in these cases:

- the token is unknown;
- the message is already verified;
- the token has expired, judged against a lifetime parsed from strings such as `"24 hours"`.

Otherwise it marks the message verified, saves it, and only then sends the admin mail and dispatches the events.

Around the pipeline, the model also covers:

- the null captcha;
- the null and Doctrine storages, with the Doctrine entity and its conversion to and from the message model;
- the admin mailer: subject, sender fallback and reply-to;
- the form type that turns field configuration into form options and constraints;
- the international phone-number transformer and its calling-code table;
- the Twig extension's translation fallback, which turns a key into Title Case text;
- the pure helpers of the setup wizard.

Each source file is one Dafny module. `Php` and `PhpNumeric` hold the PHP semantics the code relies on:

- `empty()` and truthiness;
- `??`;
- ordered associative arrays;
- ASCII case mapping;
- `bin2hex`;
- numeric strings and the `(int)` cast.

Collaborators are modelled in two ways:

- **Classes** stand in for the objects whose fields change in place:
  - the message and the entity;
  - the event and the event dispatcher;
  - the rate limiter with its token store;
  - the mail transport;
  - the Doctrine entity manager, as an in-memory table with an auto-increment id and a unique index on the verification token;
  - the form builder;
  - the submission service.
- **Parameters** or pure values stand in for the pieces the bundle does not own:
  - the clock (`now`, in seconds);
  - the random bytes;
  - `md5`;
  - the current request;
  - the translator;
  - the listeners' veto.

The service methods are proved against specification functions on a snapshot (`World`) of every collaborator. For example, `Process` ensures that its result and the new snapshot are `ProcessSpec` of the old snapshot. The pipeline's promises are lemmas about those functions:

- the checks run in order, and nothing is stored, mailed or dispatched after the first failure;
- the verification branch stores once and sends only the verification mail;
- the standard branch stores iff the mode is `database` or `both`, and mails iff it is `email` or `both`;
- with the corrected save, a message submitted for verification is accepted by its token before it expires; with the save as written, it is refused (see "## Findings").

## Model

| member | source | states |
|---|---|---|
| NullCaptcha.Validate | src/SpamProtection/NullCaptchaValidator.php:12-15 | every captcha response passes, whatever the remote address |
| NullCaptcha.IsEnabled | src/SpamProtection/NullCaptchaValidator.php:17-20 | the null captcha reports itself disabled |
| NullCaptcha.GetProvider | src/SpamProtection/NullCaptchaValidator.php:22-25 | the provider name is 'none' |
| NullCaptcha.ValidateIgnoresRemoteIp | src/SpamProtection/NullCaptchaValidator.php:12-15 | the verdict does not depend on the remote address |
| Honeypot.HoneypotValidator.Validate | src/SpamProtection/HoneypotValidator.php:25-35 | a form without the honeypot field passes; with it, the form passes exactly when the field's data is PHP-empty |
| Honeypot.Default | src/SpamProtection/HoneypotValidator.php:14-17 | the default honeypot field is 'email_confirm' |
| Honeypot.FilledStringFails | src/SpamProtection/HoneypotValidator.php:31-34 | any string other than '' and '0' in the honeypot field fails the check |
| Honeypot.WhitespaceFails | src/SpamProtection/HoneypotValidator.php:31-34 | a honeypot filled with blanks fails (empty() does not trim) |
| Honeypot.OnlyHoneypotFieldMatters | src/SpamProtection/HoneypotValidator.php:25-35 | two forms with the same honeypot data get the same verdict, whatever their other fields |
| Timing.TimingValidator.Validate | src/SpamProtection/TimingValidator.php:26-44 | a form without the timing field passes; with it, the form passes exactly when the token is truthy, numeric and its (int) value lies at least minSubmitTime seconds before now |
| Timing.Default | src/SpamProtection/TimingValidator.php:14-18 | the defaults are 3 seconds and the field '_form_token_time'; getMinSubmitTime() reports the minimum |
| Timing.DecimalTokenDecides | src/SpamProtection/TimingValidator.php:32-43 | for a token that is the decimal text of a non-zero load time t, the form passes exactly when now - t >= minSubmitTime |
| Timing.ExactMinimumPasses | src/SpamProtection/TimingValidator.php:40-43 | the bound is inclusive: exactly minSubmitTime seconds pass |
| Timing.FutureLoadTimeFails | src/SpamProtection/TimingValidator.php:38-43 | a load time later than now fails whenever the minimum is positive |
| Timing.FalsyTokenFails | src/SpamProtection/TimingValidator.php:34-36 | null, '' and '0' fail whatever the clock says |
| Timing.NonNumericTokenFails | src/SpamProtection/TimingValidator.php:34-36 | a string that is not numeric fails whatever the clock says |
| SubmittedEvent.ContactSubmittedEvent.constructor | src/Event/ContactSubmittedEvent.php:17-21 | a new event carries its message and allows processing |
| SubmittedEvent.ContactSubmittedEvent.WithFlag | src/Event/ContactSubmittedEvent.php:17-21 | the event with an explicit initial flag |
| SubmittedEvent.ContactSubmittedEvent.GetMessage | src/Event/ContactSubmittedEvent.php:23-26 | the message the event was built with |
| SubmittedEvent.ContactSubmittedEvent.PreventProcessing | src/Event/ContactSubmittedEvent.php:33-36 | after a veto shouldProcess() is false and the message is untouched |
| SubmittedEvent.PreventTwice | src/Event/ContactSubmittedEvent.php:33-36 | a second veto changes nothing |
| NullStorage.Save | src/Storage/NullStorage.php:14-17 | saving changes nothing |
| NullStorage.FindById | src/Storage/NullStorage.php:19-22 | no message is ever found by id |
| NullStorage.FindByVerificationToken | src/Storage/NullStorage.php:24-27 | no message is ever found by token |
| NullStorage.IsAvailable | src/Storage/NullStorage.php:29-32 | the null storage reports itself unavailable |
| RateLimiter.Identifier | src/SpamProtection/ContactRateLimiter.php:79-91 | 'unknown' without a request; otherwise 'contact_form_' + md5(ip or 'unknown') + '_' + md5(session id or '') |
| RateLimiter.IdentifierSeparates | src/SpamProtection/ContactRateLimiter.php:87-90 | with an injective, fixed-length md5, two requests share an identity exactly when they have the same effective IP and session id |
| RateLimiter.Reserve | src/SpamProtection/ContactRateLimiter.php:41-43 | consume(n) for n > 0 on a fixed window: accepted exactly when the window has n tokens left, which it then uses; consume(0) reads the window, is always accepted and changes nothing; the remaining tokens, and a retry time of now while the window has room for max(1, n) tokens and its end otherwise |
| RateLimiter.Run | src/SpamProtection/ContactRateLimiter.php:34-44 | k submissions at one moment give k verdicts |
| RateLimiter.RunExhaustsQuota | src/SpamProtection/ContactRateLimiter.php:34-44 | within one window holding u used tokens, submission i is accepted exactly when u + i < quota |
| RateLimiter.WindowResets | src/SpamProtection/ContactRateLimiter.php:34-44 | an identity with no window, or whose window has ended, starts afresh: of k submissions at that moment exactly the first quota are accepted |
| RateLimiter.OtherIdentitiesUnaffected | src/SpamProtection/ContactRateLimiter.php:41 | consuming for one identity leaves every other identity's window as it was |
| RateLimiter.CurrentWindow | src/SpamProtection/ContactRateLimiter.php:41 | the window in force never ends before now, and a stored window stays in force up to and including its end |
| RateLimiter.TokenStore.Consume | src/SpamProtection/ContactRateLimiter.php:41-43 | create($id)->consume($n) updates the stored windows as Reserve says |
| RateLimiter.ContactRateLimiter.constructor | src/SpamProtection/ContactRateLimiter.php:17-22 | unset arguments default to a limit of 3 and '15 minutes'; no factory is set |
| RateLimiter.ContactRateLimiter.SetLimiterFactory | src/SpamProtection/ContactRateLimiter.php:24-27 | the factory is installed |
| RateLimiter.ContactRateLimiter.IsAllowed | src/SpamProtection/ContactRateLimiter.php:34-44 | true without a factory; otherwise one token is consumed for the current identity and the verdict is whether it was accepted |
| RateLimiter.ContactRateLimiter.GetRemainingAttempts | src/SpamProtection/ContactRateLimiter.php:49-59 | the configured limit without a factory; otherwise the tokens left in the current window, with the windows unchanged |
| RateLimiter.ContactRateLimiter.GetRetryAfter | src/SpamProtection/ContactRateLimiter.php:64-74 | null without a factory; otherwise now while a token is left and the end of the window once none is, with the windows unchanged |
| RateLimiter.ContactRateLimiter.GetLimit | src/SpamProtection/ContactRateLimiter.php:93-96 | the configured limit |
| RateLimiter.ContactRateLimiter.GetInterval | src/SpamProtection/ContactRateLimiter.php:98-101 | the configured interval text |
| Mailer.BuildSubject | src/Service/ContactMailer.php:72-86 | the prefix, then ' ' and the subject when it is non-empty, else ' from ' and the name when that is non-empty, else ' New message' |
| Mailer.SubjectExtendsPrefix | src/Service/ContactMailer.php:72-86 | every subject starts with the prefix and a space and is longer than both |
| Mailer.FromEmail | src/Service/ContactMailer.php:40-41 | the configured sender, else the submitted email unless it is null, else 'noreply@example.com' |
| Mailer.ReplyTo | src/Service/ContactMailer.php:58-62 | a reply-to exists exactly when the submitted email is non-empty; its name is the submitted name or '' |
| Mailer.MailTransport.Send | src/Service/ContactMailer.php:64 | the transport delivers one mail while online and fails otherwise |
| Mailer.ContactMailer.constructor | src/Service/ContactMailer.php:20-27 | unset arguments default to '[Contact Form]', no sender and 'Contact Form' |
| Mailer.ContactMailer.Notification | src/Service/ContactMailer.php:36-62 | the notification's sender, subject, recipients, reply-to and data |
| Mailer.ContactMailer.Send | src/Service/ContactMailer.php:34-67 | exactly one notification is handed to the transport, with every recipient in order; the configured recipients are returned, or a transport failure is reported |
| Mailer.ContactMailer.SendVerificationEmail | src/Service/ContactSubmissionService.php:104-106 | the verification mail asked for is recorded with the message and its token; the admin gets nothing |
| Message.ContactMessage.constructor | src/Service/ContactSubmissionService.php:184 | a new message is created now, with no id, no data and no token |
| Message.FromState | src/Entity/ContactMessageEntity.php:144-157 | a fresh message object holding exactly the given fields, built by setter calls |
| Entity.EntityToModel | src/Entity/ContactMessageEntity.php:144-157 | toModel() copies every column unchanged |
| Entity.ModelToEntity | src/Entity/ContactMessageEntity.php:162-179 | fromModel() keeps the id only when it is truthy, takes the model's createdAt or now, and copies every other field |
| Entity.ModelRoundTrip | src/Entity/ContactMessageEntity.php:144-179 | fromModel then toModel gives back the model, except that a missing createdAt becomes now and a falsy id becomes null; a model with a creation time and a null or truthy id comes back unchanged |
| Entity.EntityRoundTrip | src/Entity/ContactMessageEntity.php:144-179 | toModel then fromModel gives back any entity whose id is not 0 |
| Entity.ContactMessageEntity.constructor | src/Entity/ContactMessageEntity.php:21-51 | a new entity: no id, created now, empty data, unverified, no token |
| Entity.ContactMessageEntity.Hydrate | src/Entity/ContactMessageEntity.php:19-46 | an entity loaded from a stored row holds its columns |
| Entity.ContactMessageEntity.AssignId | src/Entity/ContactMessageEntity.php:21-24 | the generated id is written into the entity and nothing else changes |
| Entity.ContactMessageEntity.SetCreatedAt | src/Entity/ContactMessageEntity.php:63-67 | only createdAt changes; the entity itself is returned |
| Entity.ContactMessageEntity.SetData | src/Entity/ContactMessageEntity.php:80-84 | only data changes; the entity itself is returned |
| Entity.ContactMessageEntity.SetIpAddress | src/Entity/ContactMessageEntity.php:91-95 | only the IP address changes; the entity itself is returned |
| Entity.ContactMessageEntity.SetUserAgent | src/Entity/ContactMessageEntity.php:102-106 | only the user agent changes; the entity itself is returned |
| Entity.ContactMessageEntity.SetVerified | src/Entity/ContactMessageEntity.php:113-117 | only the verified flag changes; the entity itself is returned |
| Entity.ContactMessageEntity.SetVerificationToken | src/Entity/ContactMessageEntity.php:124-128 | only the token changes; the entity itself is returned |
| Entity.ContactMessageEntity.SetVerifiedAt | src/Entity/ContactMessageEntity.php:135-139 | only verifiedAt changes; the entity itself is returned |
| Entity.ContactMessageEntity.ToModel | src/Entity/ContactMessageEntity.php:144-157 | a fresh model whose fields are EntityToModel of the entity's |
| Entity.FromModel | src/Entity/ContactMessageEntity.php:162-179 | a fresh entity whose columns are ModelToEntity of the model's fields |
| DoctrineStorage.UcwordsUnderscore | src/Storage/DoctrineStorage.php:51 | ucwords($key, '_') upper-cases the first character and each one after an underscore and keeps the rest |
| DoctrineStorage.RemoveUnderscores | src/Storage/DoctrineStorage.php:51 | str_replace('_', '', ...) leaves no underscore and never lengthens the text |
| DoctrineStorage.SetterName | src/Storage/DoctrineStorage.php:51 | the setter name for a data key starts with 'set' |
| DoctrineStorage.LowerRemoveCommutes | src/Storage/DoctrineStorage.php:51-52 | two keys equal up to letter case give the same setter once lower-cased |
| DoctrineStorage.SetterNameLower | src/Storage/DoctrineStorage.php:51-52 | the setter looked up, up to case (PHP method names ignore case), is 'set' and the key without underscores, so 'first_name', 'firstName' and 'FirstName' all reach setFirstName() |
| DoctrineStorage.WithId | src/Storage/DoctrineStorage.php:69-70 | the flushed row carries the generated id and keeps its kind |
| DoctrineStorage.FirstIndex | src/Storage/DoctrineStorage.php:130-131 | the first row satisfying the query, and none before it; or that no row does |
| DoctrineStorage.Insert | src/Storage/DoctrineStorage.php:69-70 | persist() and flush() of a new entity get the next generated id and keep the connection state; a broken connection, or a verification token another row holds (the column is unique), is refused |
| DoctrineStorage.Update | src/Storage/DoctrineStorage.php:69-70 | the corrected save's flush of a managed bundle entity: only its row changes, taking the entity's columns under the row's id, with the id counter kept; refused when the connection is down or another row holds the token |
| DoctrineStorage.Upsert | src/Storage/DoctrineStorage.php:39-70 | the corrected save: an entity without an id, or with an id no row has, is inserted; one whose id a bundle row has updates that row in place and keeps its id and the row count |
| DoctrineStorage.InsertKeepsValid | src/Storage/DoctrineStorage.php:69-70 | an insert keeps ids positive and increasing and tokens unique |
| DoctrineStorage.UpdateKeepsValid | src/Storage/DoctrineStorage.php:69-70 | an update keeps the database valid, its row count and every row's id |
| DoctrineStorage.UpsertKeepsValid | src/Storage/DoctrineStorage.php:69-70 | saving by identity keeps the database valid |
| DoctrineStorage.IdsIdentifyRows | src/Storage/DoctrineStorage.php:85 | in a valid database an id names at most one row |
| DoctrineStorage.SetterPropsStep | src/Storage/DoctrineStorage.php:50-55 | each data key's setter, when it exists, overwrites the property it writes; other properties stay |
| DoctrineStorage.SetterPropsLookup | src/Storage/DoctrineStorage.php:50-55 | a custom property is set exactly when some data key's setter exists and writes it, and it holds the value of the last such key |
| DoctrineStorage.SavedBundleFoundById | src/Storage/DoctrineStorage.php:69-94 | a bundle message saved into a valid database is found by the id written back into it, with every field as saved |
| DoctrineStorage.SavedBundleFoundByToken | src/Storage/DoctrineStorage.php:123-139 | a bundle message saved with a token is found again by that token |
| DoctrineStorage.InsertedThenResaved | src/Storage/DoctrineStorage.php:123-139 | a message inserted with a token is found by it with its id, and its verified copy saves by identity into the same row |
| DoctrineStorage.CustomDataRoundTrip | src/Storage/DoctrineStorage.php:46-118 | a custom entity with setData(), getData() and getId() keeps the message's data and reports the stored id |
| DoctrineStorage.EntityManager.PersistAndFlush | src/Storage/DoctrineStorage.php:69-70 | the table changes as Insert says and only when the write succeeds |
| DoctrineStorage.EntityManager.MergeAndFlush | src/Storage/DoctrineStorage.php:69-70 | the table changes as Upsert says and only when the write succeeds |
| DoctrineStorage.DoctrineStorage.constructor | src/Storage/DoctrineStorage.php:23-30 | the entity class defaults to the bundle's entity |
| DoctrineStorage.DoctrineStorage.IsAvailable | src/Storage/DoctrineStorage.php:148-151 | available exactly when an entity manager is present |
| DoctrineStorage.DoctrineStorage.BuildCustomProps | src/Storage/DoctrineStorage.php:43-62 | the custom entity's properties: setData() when it exists, else one setter per data key; then the IP address and the user agent when their setters exist |
| DoctrineStorage.DoctrineStorage.Save | src/Storage/DoctrineStorage.php:32-76 | without an entity manager the save fails and the message is untouched; otherwise the message becomes a new row that is always inserted, and on success the generated id is written back when the class has getId() |
| DoctrineStorage.DoctrineStorage.SaveOrUpdate | src/Storage/DoctrineStorage.php:32-76 | the corrected save: a bundle message with a stored id updates its row, any other is inserted as in Save |
| DoctrineStorage.DoctrineStorage.FindById | src/Storage/DoctrineStorage.php:78-121 | null without an entity manager; otherwise the model of the row with that id (toModel() for the bundle entity; for a custom entity the data, the IP address, the user agent and the id its getters give), or null |
| DoctrineStorage.DoctrineStorage.FindByVerificationToken | src/Storage/DoctrineStorage.php:123-146 | null without an entity manager; otherwise the bundle row holding the token, or for a custom entity the row found again through findById() when it has getId(), else null |
| DoctrineStorage.ResaveOfStoredMessageRejected | src/Storage/DoctrineStorage.php:39-70 | as written, the verified copy of a message read back by its token is inserted as a new row, and the unique token index refuses it |
| DoctrineStorage.ResaveByIdentityUpdates | src/Storage/DoctrineStorage.php:39-70 | saving by identity updates that row in place: same row count and id, the database stays valid and the row reads back as the verified message |
| Dispatcher.EventDispatcher.DispatchSubmitted | src/Service/ContactSubmissionService.php:83-88 | the submitted event is recorded, and processing stays allowed exactly when it was and no listener vetoes the message |
| Dispatcher.EventDispatcher.Dispatch | src/Service/ContactSubmissionService.php:117-129 | the persisted, email-sent and verified events are recorded in order |
| SubmissionService.MatchWhole | src/Service/ContactSubmissionService.php:207-209 | a whole-string match of digits, optional whitespace and a unit in any letter case yields the number and a lower-cased unit the pattern names |
| SubmissionService.MatchInterval | src/Service/ContactSubmissionService.php:207 | the anchored pattern also accepts one final line break, and every unit it yields is one the pattern names |
| SubmissionService.ParseInterval | src/Service/ContactSubmissionService.php:204-220 | the lifetime is never negative and always whole minutes; any text the pattern rejects gives 86400 seconds |
| SubmissionService.ParseIntervalMatched | src/Service/ContactSubmissionService.php:207-216 | a matched interval gives the number times 60, 3600 or 86400 seconds for its unit |
| SubmissionService.ParseIntervalOf | src/Service/ContactSubmissionService.php:207-216 | the decimal text of n, any whitespace and a unit in any letter case give n times the unit's seconds |
| SubmissionService.ParseIntervalNotUnit | src/Service/ContactSubmissionService.php:207-219 | a number followed by a word the pattern does not name falls back to 24 hours |
| SubmissionService.SplitRuns | src/Service/ContactSubmissionService.php:207-208 | the pattern's digits are exactly the decimal number and its whitespace exactly the separator, so the rest is the unit word |
| SubmissionService.NoUnitEndsInNewline | src/Service/ContactSubmissionService.php:207 | no unit ends in a line break, in any letter case |
| SubmissionService.NoWholeMatchWithNewline | src/Service/ContactSubmissionService.php:207 | text ending in a line break never matches whole |
| SubmissionService.TrailingNewlineAllowed | src/Service/ContactSubmissionService.php:207 | `$` accepts one final line break: the lifetime is unchanged by it |
| SubmissionService.DefaultTtlIsOneDay | src/Service/ContactSubmissionService.php:39 | the default '24 hours' is 86400 seconds |
| SubmissionService.DocumentedIntervals | src/Service/ContactSubmissionService.php:206-215 | the documented examples '1 hour' and '30 minutes' are 3600 and 1800 seconds |
| SubmissionService.ParseIntervalFallsBack | src/Service/ContactSubmissionService.php:219 | '', 'forever', '-1 hours' and '3 weeks' all give 86400 seconds |
| SubmissionService.NoLeadingDigit | src/Service/ContactSubmissionService.php:219 | text that does not start with a digit gives 24 hours |
| SubmissionService.NewToken | src/Service/ContactSubmissionService.php:93 | bin2hex(random_bytes(32)) is 64 lower-case hex digits that decode back to the random bytes |
| SubmissionService.TokensDiffer | config/routes.php:13-16 | different random bytes give different tokens, and every token meets the verify route's `[a-f0-9]{64}` |
| SubmissionService.WizardEnablesVerification | src/Service/ContactSubmissionService.php:47-51 | the configuration the setup wizard writes turns verification on exactly in 'both' mode after a yes |
| SubmissionService.ExcludedAreProtectionFields | src/Service/ContactSubmissionService.php:189 | the names left out of the data are the honeypot, the timing and the CSRF fields the form adds |
| SubmissionService.FormWrites | src/Service/ContactSubmissionService.php:188-192 | one write per form child, in order, none for the protection fields |
| SubmissionService.KeptKeys | src/Service/ContactSubmissionService.php:188-192 | every kept name is a child's and no protection field |
| SubmissionService.FormDataIsKept | src/Service/ContactSubmissionService.php:187-192 | with distinct child names the data is exactly the kept children, values unchanged and in form order |
| SubmissionService.FormDataLookup | src/Service/ContactSubmissionService.php:187-192 | no protection field reaches the data; every other child does, with its value when the names are distinct |
| SubmissionService.SaveSpec | src/Storage/DoctrineStorage.php:32-76 | a save changes the message at most in its id; a failure changes nothing; the null storage keeps nothing and succeeds; Doctrine without an entity manager fails as unavailable; with save() as written, and for custom entities, Doctrine inserts a new row; only the corrected save writes a bundle message by identity |
| SubmissionService.SaveMessage | src/Storage/DoctrineStorage.php:32-76 | the save through the storage interface, as written (DoctrineStorage.Save) or corrected (DoctrineStorage.SaveOrUpdate) as the storage says, does what SaveSpec says to the message and the rows |
| SubmissionService.FindSpec | src/Storage/NullStorage.php:24-27 | the null storage, or Doctrine without an entity manager, finds nothing |
| SubmissionService.FindByToken | src/Storage/DoctrineStorage.php:123-146 | the lookup through the storage interface returns a fresh message holding FindSpec's answer, or null |
| SubmissionService.Built | src/Service/ContactSubmissionService.php:182-199 | the built message: created now, no id, no token, the kept form data, the client IP and the User-Agent header |
| SubmissionService.ContactSubmissionService.constructor | src/Service/ContactSubmissionService.php:31-42 | the storage mode defaults to 'email' and verification to off with '24 hours' |
| SubmissionService.ContactSubmissionService.IsEmailVerificationEnabled | src/Service/ContactSubmissionService.php:47-51 | verification is on exactly when it is configured and the storage mode both stores in the database and mails |
| SubmissionService.ContactSubmissionService.Gate | src/Service/ContactSubmissionService.php:60-77 | the honeypot refusal exactly when the honeypot fails, the timing refusal exactly when only the timing fails, otherwise at most a rate-limit refusal; only the limiter's windows change, and only for a form that passes; a refused form changes nothing; without a limiter the form passes the two checks or is refused |
| SubmissionService.ContactSubmissionService.Persist | src/Service/ContactSubmissionService.php:98-102 | a failed save is a storage refusal that changes nothing; a successful one changes the message at most in its id, changes the rows, and appends the persisted event of the saved message |
| SubmissionService.ContactSubmissionService.Notify | src/Service/ContactSubmissionService.php:125-129 | refused exactly when the transport is down, changing nothing; otherwise one admin mail of the message's data and one email-sent event with the recipients are appended and nothing else changes |
| SubmissionService.ContactSubmissionService.ProcessSpec | src/Service/ContactSubmissionService.php:58-133 | an accepted message holds the kept form data, the creation time, the client IP and User-Agent; it is unverified with the new token exactly when verification is on, and verified without a token otherwise; a verification mail is requested exactly for an accepted message of the verification branch |
| SubmissionService.ContactSubmissionService.VerifySpec | src/Service/ContactSubmissionService.php:140-180 | an accepted message is verified at now; a refusal is an unknown token, an already verified message, an expired token, the storage or the transport; every refusal but the transport's changes nothing; the limiter and the verification mails never change |
| SubmissionService.ContactSubmissionService.VerificationFlow | src/Service/ContactSubmissionService.php:91-109 | the verification branch can only be refused by the storage |
| SubmissionService.ContactSubmissionService.StandardFlow | src/Service/ContactSubmissionService.php:111-132 | the standard branch can only be refused by the storage or the mail transport |
| SubmissionService.ContactSubmissionService.Confirm | src/Service/ContactSubmissionService.php:161-179 | the end of verifyMessage(), with the storage's save (as written or corrected): it can only be refused by that save or by the mail transport |
| SubmissionService.ContactSubmissionService.CheckGates | src/Service/ContactSubmissionService.php:60-77 | the three spam checks run as Gate says: each refusal in order, the rate limiter consuming only for a form the first two pass |
| SubmissionService.ContactSubmissionService.CreateMessageFromForm | src/Service/ContactSubmissionService.php:182-199 | a fresh message holding Built's fields |
| SubmissionService.ContactSubmissionService.PersistMessage | src/Service/ContactSubmissionService.php:98-102 | save() and then, on success, the persisted event |
| SubmissionService.ContactSubmissionService.NotifyAdmin | src/Service/ContactSubmissionService.php:125-129 | send() and then, on success, the email-sent event with the returned recipients |
| SubmissionService.ContactSubmissionService.VerificationBranch | src/Service/ContactSubmissionService.php:91-109 | the message gets the new token and verified=false, is saved and announced, and only the sender is mailed |
| SubmissionService.ContactSubmissionService.StandardBranch | src/Service/ContactSubmissionService.php:111-132 | the message is saved as verified in the database modes and mailed to the admin in the mail modes |
| SubmissionService.ContactSubmissionService.Process | src/Service/ContactSubmissionService.php:58-133 | process() returns the message or the refusal, and leaves the limiter, the rows, the transport, the mail requests and the events as ProcessSpec says |
| SubmissionService.ContactSubmissionService.VerifyMessage | src/Service/ContactSubmissionService.php:140-180 | verifyMessage() returns the verified message or the refusal, and leaves the collaborators as VerifySpec says, with the storage's save as written or corrected |
| SubmissionService.ContactSubmissionService.ConfirmMessage | src/Service/ContactSubmissionService.php:161-179 | the message is marked verified now and saved with the storage's save (as written or corrected); only if that succeeds is it mailed to the admin and announced twice |
| SubmissionService.ContactSubmissionService.ChecksInOrder | src/Service/ContactSubmissionService.php:60-88 | honeypot, then timing, then rate limit, then the listeners' veto, each refusal exactly when the earlier checks pass and it fails; a form the checks stop leaves everything unchanged; the rate-limit refusal carries the end of the window; a veto leaves only the submitted event |
| SubmissionService.ContactSubmissionService.VerificationBranchOutcome | src/Service/ContactSubmissionService.php:91-109 | with verification on: the token meets the route's pattern; the message is accepted exactly when stored, unverified, with its token and the form data; the sender's mail is requested; the admin gets nothing; the events are submitted then persisted |
| SubmissionService.ContactSubmissionService.VerificationFlowOutcome | src/Service/ContactSubmissionService.php:94-108 | the verification branch from any state: accepted exactly when the save succeeds; on refusal nothing changes |
| SubmissionService.ContactSubmissionService.StandardFlowOutcome | src/Service/ContactSubmissionService.php:113-132 | the standard branch from any state: stored only in 'database' and 'both', mailed only in 'email' and 'both', accepted exactly when each of those succeeds, events in that order |
| SubmissionService.ContactSubmissionService.StandardBranchOutcome | src/Service/ContactSubmissionService.php:111-132 | with verification off: the message is marked verified and holds the form data; stored exactly in the database modes and mailed to the admin exactly in the mail modes; no verification mail |
| SubmissionService.ContactSubmissionService.VerifyOutcome | src/Service/ContactSubmissionService.php:142-179 | an unknown token, an already verified message and an expired token are each refused exactly in their case and change nothing; for a message past those checks, the verification is accepted exactly when the save of its verified copy (as written or corrected) succeeds and the transport is up, a failed save is refused as a storage failure and changes nothing, and an accepted message is the saved copy, mailed to the admin once, followed by the email-sent and verified events |
| SubmissionService.ContactSubmissionService.SubmitThenVerify | src/Service/ContactSubmissionService.php:140-164 | with the corrected save, a message stored for verification is found by its token, and before its lifetime ends and with a working mail transport it is confirmed |
| SubmissionService.ContactSubmissionService.SubmitStoresByInsert | src/Service/ContactSubmissionService.php:94-98 | the verification branch's save inserts a new unverified row created at submission time |
| SubmissionService.ContactSubmissionService.ConfirmAfterResave | src/Service/ContactSubmissionService.php:161-179 | with the corrected save, when the verified copy saves by identity and the transport works, verifyMessage() accepts it |
| SubmissionService.ContactSubmissionService.SubmitThenVerifyAsWritten | src/Service/ContactSubmissionService.php:140-164 | with save() as written, the verified copy of a stored message is inserted again and refused as a duplicate token, so verifyMessage() before the lifetime ends is refused by the storage and changes nothing |
| SetupHelpers.ConstraintsForSpec | src/Command/SetupCommand.php:424-445 | NotBlank exactly when the column is not nullable, Email exactly for the email type, a maximum length exactly when the metadata holds a truthy length, 10..5000 exactly for a textarea; nothing else, in that order |
| SetupHelpers.SelectedSpec | src/Command/SetupCommand.php:426-444 | each item is present exactly when its decision holds, and the items keep the order NotBlank, Email, maximum, textarea length |
| SetupHelpers.GenerateConstraints | src/Command/SetupCommand.php:424-445 | the list the appends build is ConstraintsFor of the type and the metadata |
| SetupHelpers.ListValue | src/Command/SetupCommand.php:429-441 | a PHP list holds the items in order |
| SetupHelpers.FieldConfigReads | src/Command/SetupCommand.php:395-400 | a generated field holds the keys type, required, label, constraints in that order, the label being 'contact.field.' and the name |
| SetupHelpers.DefaultFields | src/Command/SetupCommand.php:450-490 | the default fields are name, email, subject and message, in that order, each once |
| SetupHelpers.Columns | src/Command/SetupCommand.php:390-402 | one write per metadata column, the column's canonical field when its lower-cased name is mapped |
| SetupHelpers.EnsureSetLookup | src/Command/SetupCommand.php:405-413 | `isset` guards the write: a set field keeps its value, an unset one gets the default, and other fields stay |
| SetupHelpers.GenerateFieldsFromEntity | src/Command/SetupCommand.php:376-418 | the loop's result is the mapped columns' fields with the minimum fields added |
| SetupHelpers.CanonicalNames | src/Command/SetupCommand.php:379-388 | exactly the eight names title, name, email, phone, subject, subtitle, body and message are mapped, to the five canonical fields |
| SetupHelpers.EntityFieldsLookup | src/Command/SetupCommand.php:390-402 | a canonical field is present exactly when some column maps to it, and holds the configuration derived from the last such column |
| SetupHelpers.EnsureMinimumLookup | src/Command/SetupCommand.php:405-413 | name, email and message keep a present value and get the default otherwise; every other field stays |
| SetupHelpers.WithMinimumLookup | src/Command/SetupCommand.php:404-413 | the minimum step adds a missing name, email or message from the defaults and changes nothing else |
| SetupHelpers.MinimumFields | src/Command/SetupCommand.php:404-413 | on the fields derived from any metadata, the minimum step adds only missing name, email and message defaults |
| SetupHelpers.MinimumFieldsPresent | src/Command/SetupCommand.php:404-417 | the generated configuration always holds name, email and message |
| SetupHelpers.UnmappedColumnIgnored | src/Command/SetupCommand.php:393 | a column whose name is not mapped changes nothing |
| SetupHelpers.SinglesArrayEntries | src/Form/ContactFormType.php:124-133 | each single-entry constraint item the form reads yields its one entry, in order |
| SetupHelpers.KnownMapConstraints | src/Form/ContactFormType.php:126-131 | each known constraint name in a map gives one constraint built from its entry, in order |
| SetupHelpers.SinglesConstraints | src/Form/ContactFormType.php:120-136 | a list of single known constraint maps gives the form one constraint per item, in order |
| SetupHelpers.GeneratedConstraintsApplied | src/Command/SetupCommand.php:399 | the constraints the wizard writes for a column are the ones the form applies to the field, one per item, in order |
| SetupHelpers.ItemsKnown | src/Form/ContactFormType.php:36-44 | the form knows every generated item, and only NotBlank builds a NotBlank constraint |
| SetupHelpers.ItemsApplied | src/Form/ContactFormType.php:120-136 | any list of generated items reaches the form one constraint per item |
| SetupHelpers.NotBlankIffNotNullable | src/Command/SetupCommand.php:428-430 | the form gets NotBlank for a generated field exactly when its column is not nullable |
| SetupHelpers.NotBlankBuiltIffPresent | src/Command/SetupCommand.php:428-430 | the form gets NotBlank exactly when the list holds it |
| SetupHelpers.DefaultFieldValues | src/Command/SetupCommand.php:450-490 | the four default fields with their types, labels and constraints |
| SetupHelpers.FieldConfigType | src/Form/ContactFormType.php:57 | a generated field reaches the form as the type its tag names |
| SetupHelpers.DefaultFieldTypes | src/Command/SetupCommand.php:450-490 | the default fields become a text, an email, a text and a textarea field |
| SetupHelpers.DefaultFieldsRequired | src/Command/SetupCommand.php:450-490 | every default field is required and labelled 'contact.field.' and its name |
| SetupHelpers.TwoConstraints | src/Form/ContactFormType.php:120-136 | two single constraint maps give the form their two constraints, in order |
| SetupHelpers.BuiltItems | src/Form/ContactFormType.php:126-131 | the constraint the form builds from each item the wizard writes |
| SetupHelpers.DefaultNameConstraints | src/Command/SetupCommand.php:457-460 | the form applies NotBlank and a maximum length of 100 to the default name |
| SetupHelpers.DefaultEmailConstraints | src/Command/SetupCommand.php:466-469 | the form applies NotBlank and Email to the default email |
| SetupHelpers.DefaultSubjectConstraints | src/Command/SetupCommand.php:475-478 | the form applies NotBlank and a maximum length of 200 to the default subject |
| SetupHelpers.DefaultMessageConstraints | src/Command/SetupCommand.php:484-487 | the form applies NotBlank and a 10..5000 length to the default message |
| SetupHelpers.ValidatePrefix | src/Command/SetupCommand.php:502-512 | an accepted prefix is the input itself |
| SetupHelpers.PrefixAcceptedIff | src/Command/SetupCommand.php:502-512 | a prefix is accepted exactly when it starts with '/' and does not end with '/' unless it is '/'; a missing leading slash is reported first |
| SetupHelpers.DefaultPrefixAccepted | src/Command/SetupCommand.php:499-501 | the default '/admin/contact' is accepted |
| SetupHelpers.AskEmailVerification | src/Command/SetupCommand.php:573-597 | verification is on exactly in 'both' mode after a yes; its lifetime is the answer, or '24 hours' when null or not asked |
| SetupHelpers.AskMailerConfiguration | src/Command/SetupCommand.php:603-639 | the four answers in order; with verification on the copy to the sender is forced, otherwise it is the answer |
| SetupHelpers.VerificationForcesCopy | src/Command/SetupCommand.php:620-631 | after the wizard's verification answers, the sender gets a copy exactly when verification is on or the copy was asked for |
| FormType.MapsExact | src/Form/ContactFormType.php:26-44 | exactly the seven type tags and the seven constraint names are known; distinct tags select distinct types and distinct names distinct constraints |
| FormType.FieldTypeOf | src/Form/ContactFormType.php:57 | a known tag selects its form type; a missing, unknown or non-string tag gives a text field |
| FormType.EntryConstraint | src/Form/ContactFormType.php:126-131 | one `name => options` entry yields one constraint with its options (null becoming []) for a known name, and none otherwise |
| FormType.MapConstraintsMembers | src/Form/ContactFormType.php:126-131 | a constraint map yields exactly the constraints of its known names |
| FormType.MapConstraintsConcat | src/Form/ContactFormType.php:126-131 | the constraints of two map parts come in turn |
| FormType.ArrayEntriesMembers | src/Form/ContactFormType.php:124-126 | an entry is collected exactly when it belongs to an array item of the list |
| FormType.ConstraintOrigin | src/Form/ContactFormType.php:120-136 | a constraint is built exactly when some array item has an entry with a known name and those options; unknown names and non-array items are dropped |
| FormType.ConstraintsConcat | src/Form/ContactFormType.php:120-136 | order is kept: the constraints of two parts of the list come in turn |
| FormType.BaseOptions | src/Form/ContactFormType.php:92-97 | the base options are required (default false), label (default null), the 'contact_us' domain and attr (default []), in that order |
| FormType.FieldOptionsSteps | src/Form/ContactFormType.php:99-113 | the options are the copied options, with the built constraints set when config.constraints is an array |
| FormType.CopyKeepsKeys | src/Form/ContactFormType.php:100-106 | copying keeps the keys already there, in place |
| FormType.CopyOptionsLookup | src/Form/ContactFormType.php:100-106 | after copying, a key other than 'attr' holds the copied value; 'attr' and keys not copied hold what they held |
| FormType.FieldOptionsLookup | src/Form/ContactFormType.php:90-114 | 'constraints' holds the built constraints when config.constraints is an array; a configured option other than 'attr' holds its value; every other key its base value, or none |
| FormType.ConstraintsOptionPresent | src/Form/ContactFormType.php:100-111 | the constraints option exists exactly when config.constraints is an array or config.options carries 'constraints' |
| FormType.BaseLacksConstraints | src/Form/ContactFormType.php:92-97 | no base option is named 'constraints' |
| FormType.BaseKeysFirst | src/Form/ContactFormType.php:92-113 | the four base options stay first, in order |
| FormType.CopiedKeysFirst | src/Form/ContactFormType.php:92-106 | copying config.options keeps the base options first |
| FormType.ConstrainedKeepsKeys | src/Form/ContactFormType.php:109-111 | setting the constraints keeps the copied keys in place |
| FormType.FormBuilder.Add | src/Form/ContactFormType.php:60 | add() appends a new name and replaces an existing one in place |
| FormType.HoneypotChild | src/Form/ContactFormType.php:64-73 | the honeypot is an unmapped, optional text field |
| FormType.TimingChild | src/Form/ContactFormType.php:76-83 | the timing field is an unmapped, optional text field holding `(string) time()` |
| FormType.Configured | src/Form/ContactFormType.php:56-61 | one child per configured field, in order, with the type and options of its configuration |
| FormType.FormLayout | src/Form/ContactFormType.php:54-84 | with distinct names and none a hidden field's, the form is the configured fields in order, then the honeypot, then the timing field |
| FormType.HiddenFieldsAlwaysPresent | src/Form/ContactFormType.php:63-83 | whatever is configured the form has the honeypot and timing fields, written last so they replace a configured field of the same name |
| FormType.TimingDataReadsBack | src/Form/ContactFormType.php:82 | the timing field's data is numeric and casts back to the render time |
| FormType.ContactFormType.constructor | src/Form/ContactFormType.php:49-52 | the form type keeps its field configuration |
| FormType.ContactFormType.BuildConstraints | src/Form/ContactFormType.php:120-136 | the outer loop builds ConstraintsOf of the list |
| FormType.ContactFormType.AddMapConstraints | src/Form/ContactFormType.php:126-131 | the inner loop extends the constraints with those of one map's entries |
| FormType.ContactFormType.BuildFieldOptions | src/Form/ContactFormType.php:90-114 | buildFieldOptions() returns FieldOptions of the configuration |
| FormType.ContactFormType.CopyEntries | src/Form/ContactFormType.php:100-106 | the copy loop returns CopyOptions of the base options |
| FormType.ContactFormType.BuildForm | src/Form/ContactFormType.php:54-84 | buildForm() leaves the configured fields and then the two hidden fields in the builder |
| FormType.ContactFormType.AddConfiguredFields | src/Form/ContactFormType.php:56-61 | the loop adds one child per configured field, in order |
| FormType.ContactFormType.DefaultOptions | src/Form/ContactFormType.php:138-145 | CSRF protection is on, with the field '_token' and the token id 'contact_form' |
| FormType.ContactFormType.GetBlockPrefix | src/Form/ContactFormType.php:147-150 | the block prefix is 'contact' |
| CountryCodes.RegionalIndicator | src/Form/Type/CountryCodes.php:17 | the flag symbol of each letter is the regional indicator at U+1F1E6 plus its offset from 'A' |
| CountryCodes.Flag | src/Form/Type/CountryCodes.php:24-62 | a flag is two regional-indicator symbols |
| CountryCodes.DefaultCountries | src/Form/Type/CountryCodes.php:21-64 | the table has the 39 countries of the list |
| CountryCodes.RowShape | src/Form/Type/CountryCodes.php:24-62 | every row has a two-letter upper-case key and a '+' code of one to three digits |
| CountryCodes.KeysAscend | src/Form/Type/CountryCodes.php:24-62 | each key comes alphabetically after the one before |
| CountryCodes.KeysIncrease | src/Form/Type/CountryCodes.php:24-62 | the keys ascend through the whole table |
| CountryCodes.TableSorted | src/Form/Type/CountryCodes.php:24-62 | the table is sorted by key and each flag is the flag of its key |
| CountryCodes.SortedKeysUnique | src/Form/Type/CountryCodes.php:24-62 | no key appears twice |
| CountryCodes.GetCallingCode | src/Form/Type/CountryCodes.php:125-129 | a code is found exactly when the upper-cased key is in the table, and it is that country's code |
| CountryCodes.LookupSorted | src/Form/Type/CountryCodes.php:128 | in a sorted table a key's lookup finds its one entry |
| CountryCodes.CallingCodeAt | src/Form/Type/CountryCodes.php:125-129 | the code of a key is the code in its row |
| CountryCodes.HungaryCallingCode | src/Form/Type/CountryCodes.php:128 | 'hu' is upper-cased and gives '+36' |
| CountryCodes.SharedCodes | src/Form/Type/CountryCodes.php:128 | Canada and the United States share '+1', whatever the letter case |
| CountryCodes.FilterAllowed | src/Form/Type/CountryCodes.php:91-97 | array_filter keeps exactly the entries whose key is allowed, in table order |
| CountryCodes.SortedTail | src/Form/Type/CountryCodes.php:92-96 | the rest of a sorted table is sorted and its keys follow the first |
| CountryCodes.SortedCons | src/Form/Type/CountryCodes.php:92-96 | a country whose key precedes every key of a sorted table extends it |
| CountryCodes.GetCountries | src/Form/Type/CountryCodes.php:72-100 | the whole table unless a non-empty allowed list is given; then exactly the allowed table entries; always sorted |
| CountryCodes.FlagsDistinct | src/Form/Type/CountryCodes.php:24-62 | different keys have different flags |
| CountryCodes.LabelsDistinct | src/Form/Type/CountryCodes.php:115 | no two countries get the same choice label |
| CountryCodes.GetChoices | src/Form/Type/CountryCodes.php:109-120 | one choice per country, '<flag> <name> (<code>)' to its key, in table order |
| CountryCodes.ChoicesOf | src/Form/Type/CountryCodes.php:114-117 | the loop over sorted countries makes one choice per country, in order |
| CountryCodes.LabelNew | src/Form/Type/CountryCodes.php:116 | each label is new when it is added, so no choice overwrites another |
| CountryCodes.HungaryOnlyWith36 | src/Form/Type/CountryCodes.php:24-62 | Hungary is the only country dialled with +36 |
| CountryCodes.OnlyHungaryDials36 | src/Form/Type/CountryCodes.php:24-62 | the only row with +36 is Hungary's |
| PhoneTransformer.InsertByCodeLength | src/Form/DataTransformer/PhoneNumberTransformer.php:47 | inserting one country into the sorted list keeps every entry and adds that one |
| PhoneTransformer.InsertKeepsLongestFirst | src/Form/DataTransformer/PhoneNumberTransformer.php:47 | inserting keeps the list ordered longest code first |
| PhoneTransformer.InsertKeepsOrder | src/Form/DataTransformer/PhoneNumberTransformer.php:46-47 | inserting into a longest-first list puts the entry after every entry of its code length |
| PhoneTransformer.SortByCodeLength | src/Form/DataTransformer/PhoneNumberTransformer.php:46-47 | uasort() by code length gives a permutation of the countries with the longest codes first, in which countries with codes of equal length keep their table order (PHP's sort is stable, so '+1' goes to CA, listed before US) |
| PhoneTransformer.FirstPrefixMatch | src/Form/DataTransformer/PhoneNumberTransformer.php:49-57 | the first candidate whose calling code begins the value, and none before it; or that none does |
| PhoneTransformer.ScanCodes | src/Form/DataTransformer/PhoneNumberTransformer.php:49-57 | the loop stops at FirstPrefixMatch's candidate |
| PhoneTransformer.LTrimPlus | src/Form/DataTransformer/PhoneNumberTransformer.php:62 | ltrim($value, '+') removes exactly the leading plus signs |
| PhoneTransformer.DigitsOnly | src/Form/DataTransformer/PhoneNumberTransformer.php:87 | the cleaned number holds only digits, and a number of digits is left as it is |
| PhoneTransformer.PhoneNumberTransformer.constructor | src/Form/DataTransformer/PhoneNumberTransformer.php:22-25 | the default country is 'HU' unless another is given |
| PhoneTransformer.PhoneNumberTransformer.Candidates | src/Form/DataTransformer/PhoneNumberTransformer.php:44-47 | the offered countries, longest code first |
| PhoneTransformer.PhoneNumberTransformer.Split | src/Form/DataTransformer/PhoneNumberTransformer.php:34-64 | null or '' gives the default country and ''; otherwise the first candidate whose code begins the value, with the rest of the value; else the default country and the value without leading '+' |
| PhoneTransformer.PhoneNumberTransformer.Transform | src/Form/DataTransformer/PhoneNumberTransformer.php:34-64 | transform() returns the parts Split describes |
| PhoneTransformer.PhoneNumberTransformer.ReverseTransform | src/Form/DataTransformer/PhoneNumberTransformer.php:73-100 | null for a non-array or an empty number; otherwise the country's calling code and the number's digits, or the invalid-country failure |
| PhoneTransformer.PrefixFree | src/Form/DataTransformer/PhoneNumberTransformer.php:46-51 | no calling code of the table is a proper prefix of another, so two codes that both begin a number are equal |
| PhoneTransformer.TableCodesWellFormed | src/Form/Type/CountryCodes.php:24-62 | every table entry has a two-letter key and a well-formed code |
| PhoneTransformer.CountriesFromTable | src/Form/Type/CountryCodes.php:72-100 | the offered countries come from the table |
| PhoneTransformer.MatchHasSameCode | src/Form/DataTransformer/PhoneNumberTransformer.php:49-57 | a value starting with an offered country's code matches a table country with that very code |
| PhoneTransformer.CallingCodeOfEntry | src/Form/Type/CountryCodes.php:125-129 | every table country's key gives back its code |
| PhoneTransformer.RoundTrip | src/Form/DataTransformer/PhoneNumberTransformer.php:34-100 | transform() then reverseTransform() gives back an offered country's code followed by digits; the split keeps the digits and a country with that code |
| PhoneTransformer.SplitOffered | src/Form/DataTransformer/PhoneNumberTransformer.php:49-56 | an offered country's code followed by digits splits into a table country with that code and the digits |
| PhoneTransformer.SplitOfCode | src/Form/DataTransformer/PhoneNumberTransformer.php:51-55 | when the matching candidate's code is as long as the prefix, the rest of the value is the digits |
| PhoneTransformer.SplitAtMatch | src/Form/DataTransformer/PhoneNumberTransformer.php:51-55 | a matched value splits at the end of the candidate's code |
| PhoneTransformer.ReverseOfKnownCountry | src/Form/DataTransformer/PhoneNumberTransformer.php:79-99 | a known country and a digit string give its calling code followed by the digits |
| PhoneTransformer.HungarianExample | src/Form/DataTransformer/PhoneNumberTransformer.php:27-29 | '+36301234567' splits into HU and '301234567', and they join back |
| TwigExtension.LastSegment | src/Twig/ContactUsExtension.php:100-101 | the text after the key's last dot: it contains no dot, is a suffix of the key, and is preceded by a dot when shorter than the key |
| TwigExtension.Spaced | src/Twig/ContactUsExtension.php:104 | same length; every '_' and '-' becomes a space and every other character is kept |
| TwigExtension.Ucwords | src/Twig/ContactUsExtension.php:106 | same length; each character that starts a word (first position or after a space, tab, CR, LF, form feed or vertical tab) is upper-cased, every other one kept |
| TwigExtension.UcwordsShape | src/Twig/ContactUsExtension.php:106 | ucwords keeps the word boundaries and each character's lower-case form, leaves no word starting with a lower-case letter and changes nothing inside words |
| TwigExtension.UpperCase | src/Twig/ContactUsExtension.php:106 | upper-casing a character keeps its lower-case form and whether it is a word separator, and never yields a lower-case letter |
| TwigExtension.UcwordsWord | src/Twig/ContactUsExtension.php:106 | a single plain word gets only its first character upper-cased |
| TwigExtension.UcwordsJoin | src/Twig/ContactUsExtension.php:106 | ucwords of two texts joined by a space is the two results joined by a space |
| TwigExtension.UcwordsThree | src/Twig/ContactUsExtension.php:106 | three plain words joined by spaces are capitalised one by one |
| TwigExtension.SpacedUnchanged | src/Twig/ContactUsExtension.php:104 | a text without '_' or '-' is left unchanged by the replacement |
| TwigExtension.LastSegmentAfterDot | src/Twig/ContactUsExtension.php:100-101 | whatever precedes the last dot, the last segment is the dot-free text after it |
| TwigExtension.NoDotSegment | src/Twig/ContactUsExtension.php:100-101 | a key without a dot is its own last segment |
| TwigExtension.PlainTextOfWord | src/Twig/ContactUsExtension.php:97-107 | a key ending in a dot and one plain word reads as that word capitalised |
| TwigExtension.PlainTextOfBareWord | src/Twig/ContactUsExtension.php:97-107 | a key that is one plain word reads as that word capitalised |
| TwigExtension.ExtractPlainText | src/Twig/ContactUsExtension.php:97-107 | extractPlainText(): ucwords of the last dot-separated segment with '_' and '-' made spaces; it is as long as that segment and differs from its spaced form only in letter case |
| TwigExtension.PlainTextShape | src/Twig/ContactUsExtension.php:97-107 | the fallback text is as long as the key's last segment, has no '.', '_' or '-', matches the spaced segment up to case, starts no word with a lower-case letter and keeps every other character (camelCase is not split) |
| TwigExtension.PlainTextIdempotent | src/Twig/ContactUsExtension.php:97-107 | extracting plain text from already extracted text gives that text back |
| TwigExtension.DocumentedExamples | src/Twig/ContactUsExtension.php:90-96 | the three documented examples: contact.field.name reads as Name, contact.submit as Submit, your_custom_label as Your Custom Label |
| TwigExtension.ExampleCamelCase | src/Twig/ContactUsExtension.php:103-106 | camelCase reads as CamelCase: only the first letter changes, the word is not split |
| TwigExtension.ContactUsExtension.TranslationEnabled | src/Twig/ContactUsExtension.php:32-37 | 'true' turns translation on and 'false' off; 'auto', any other value or a missing key means on exactly when a translator is present |
| TwigExtension.ContactUsExtension.EffectiveDomain | src/Twig/ContactUsExtension.php:72 | a truthy domain argument is used; otherwise the configured domain converted to a string (empty when missing) |
| TwigExtension.ContactUsExtension.Translate | src/Twig/ContactUsExtension.php:65-87 | disabled or without a translator: the plain-text fallback; otherwise the translator's answer for the effective domain, replaced by the fallback when it equals the key or when the translator throws |
| TwigExtension.NeverEchoesKey | src/Twig/ContactUsExtension.php:78-80 | the filter returns the raw key only when the key already is its own plain text |
| TwigExtension.NoTranslatorFallsBack | src/Twig/ContactUsExtension.php:68-70 | without a translator the filter always gives the fallback text, whatever the configured flag |
| TwigExtension.ContactUsExtension.GetGlobals | src/Twig/ContactUsExtension.php:40-52 | getGlobals(): one 'contact_us_config' array holding 'templates', 'design' and 'translation' in that order, the last with 'enabled' and 'domain' |
| TwigExtension.GlobalsExposeConfig | src/Twig/ContactUsExtension.php:40-52 | the template globals hold the templates and design unchanged, the computed flag as a boolean, and the configured domain or 'contact_us' when it is missing or null |
| Php.EmptyExactly | src/SpamProtection/HoneypotValidator.php:34 | empty() holds exactly for null, false, 0, '', '0' and the empty array |
| Php.Lookup | src/Service/ContactSubmissionService.php:154 | an array read finds a value exactly when the key is present, and the value is one stored under that key |
| Php.Put | src/Service/ContactSubmissionService.php:190 | an array write overwrites in place when the key is present and appends otherwise; the key then reads the new value, every other key reads as before, no other entry moves |
| Php.PutKeysPrefix | src/Service/ContactSubmissionService.php:190 | a write keeps the keys already present, in their order |
| Php.PutKeepsUnique | src/Service/ContactSubmissionService.php:190 | a write keeps keys unique |
| Php.PutSomeLookup | src/Command/SetupCommand.php:376-418 | after a sequence of optional writes a key is present iff it was or was written; the last write to it decides its value; without one it reads as before |
| Php.PutSomeLastWins | src/Command/SetupCommand.php:376-418 | the last write to a key decides its value |
| Php.PutSomeUnwritten | src/Command/SetupCommand.php:376-418 | a key nobody writes reads as before |
| Php.PutAllFresh | src/Service/ContactSubmissionService.php:187-192 | writing distinct keys into an empty array gives exactly those entries in order |
| Php.PutFreshAppends | src/Service/ContactSubmissionService.php:190 | writing a new key appends the entry |
| Php.PutTwoFreshAppends | src/Form/ContactFormType.php:64-83 | writing two distinct new keys appends both, in order |
| Php.LookupUnique | src/Service/ContactSubmissionService.php:190 | in an array with unique keys, reading entry i's key gives entry i's value |
| Php.Get | src/Twig/ContactUsExtension.php:72 | a read of a missing key gives null, otherwise the stored value |
| Php.Coalesce | src/Service/ContactMailer.php:41 | `??` gives a present non-null value and the default otherwise |
| Php.LowerStr | src/Command/SetupCommand.php:391 | strtolower maps every character to its ASCII lower case, length kept |
| Php.LowerConcat | src/Command/SetupCommand.php:391 | strtolower distributes over concatenation |
| Php.UpperStr | src/Form/Type/CountryCodes.php:128 | strtoupper maps every character to its ASCII upper case, length kept |
| Php.NatToDecimal | src/SpamProtection/TimingValidator.php:38 | the decimal digits of a natural number: at least one digit, no leading zero, "0" for zero |
| Php.DigitsValueOfDecimal | src/SpamProtection/TimingValidator.php:38 | reading the decimal digits of n back gives n |
| Php.NonZeroDecimalIsTruthy | src/SpamProtection/TimingValidator.php:34 | the decimal string of a non-zero integer is truthy |
| Php.Bin2Hex | src/Service/ContactSubmissionService.php:93 | bin2hex gives two lower-case hex digits per byte |
| Php.Bin2HexRoundTrip | src/Service/ContactSubmissionService.php:93 | hex2bin undoes bin2hex: no information of the random bytes is lost in the token |
| PhpNumeric.DigitRun | src/SpamProtection/TimingValidator.php:34 | the longest run of digits at a position: all digits, ended by a non-digit or the end of the string |
| PhpNumeric.WhitespaceRun | src/SpamProtection/TimingValidator.php:34 | the longest run of whitespace at a position, ended by a non-whitespace character or the end |
| PhpNumeric.ParsedDigits | src/SpamProtection/TimingValidator.php:34-38 | the integer and fraction parts of a numeric string are digit strings |
| PhpNumeric.TruncateWhole | src/SpamProtection/TimingValidator.php:38 | a whole number without exponent casts to its digits' value, negated under a minus sign |
| PhpNumeric.IsNumeric | src/SpamProtection/TimingValidator.php:34 | is_numeric(): every integer is numeric, only integers and strings can be, and a numeric string holds at least one digit |
| PhpNumeric.Truncate | src/SpamProtection/TimingValidator.php:38 | the value of a numeric string truncated toward zero has the string's sign |
| PhpNumeric.IntCast | src/SpamProtection/TimingValidator.php:38 | `(int)` keeps an integer and gives a numeric string its truncated value, with the string's sign |
| PhpNumeric.ParseSignedDigits | src/SpamProtection/TimingValidator.php:34 | an optional minus followed by digits is numeric, with no fraction and no exponent |
| PhpNumeric.IntCastOfDecimal | src/SpamProtection/TimingValidator.php:34-38 | the decimal string of any integer is numeric and casts back to that integer |

## Left out

- Console I/O and file-system work of the setup wizard are not modelled: `execute`, the prompts, saving the configuration, importing routes, migrations and cache clearing. Prompt answers are parameters of the modelled helpers.
- The cache warmer, the controllers, the CRUD services, the dependency-injection configuration and the route files are not modelled. The route pattern `[a-f0-9]{64}` is used only to state which tokens the pipeline produces.
- The country names that `getCountries` looks up through symfony/intl (src/Form/Type/CountryCodes.php:77-88) are not modelled. The names in the model come from the calling-code table.
- The persisted, email-sent and verified events are values: the dispatcher keeps them as a log of named events. Listener side effects other than the veto of the submitted event are not modelled.
- The Symfony rate limiter is a fixed-window token store per identity. Other policies, such as the sliding window and the token bucket, are not modelled. The Symfony library is not part of this model's sources; its window rules (a window ends only once more than the interval has passed, a zero-token consume is always accepted) follow its published documentation.
- The retry-after time is an integer number of seconds (now while a token is left, else the end of the window), not a `DateTimeImmutable`.
- Time is an integer number of seconds. Date formatting and time zones are not modelled. The pipeline's two readings of the clock (the check and `verifiedAt`) are one `now`.
- The random bytes are a parameter; `random_bytes` itself is not modelled.
- `md5` is an arbitrary function parameter, not the MD5 algorithm.
- The translator is an arbitrary function from key, parameters and domain to a text or an exception.
- The mail transport is a class that records delivered mails and may be offline. Rendering of the templated email and validation of mail addresses are not modelled.
- `sendVerificationEmail` is recorded as a request holding the message and its token. The method is not defined in ContactMailer.php, so its mail is not modelled.
- The message model class `Caeligo\ContactUsBundle\Model\ContactMessage` is not part of this model's sources. Its eight fields are inferred from the setters that the entity and the pipeline call. A new message is treated as not awaiting verification (`verified` true).
- PHP exceptions are modelled as `Refused` or `Rejected` results carrying the reason. Their message texts are not modelled. PHP type errors from values of the wrong type are not modelled.
- SubmissionService.ParseInterval: uses unbounded natural numbers, so it does not model the platform-width overflow of `(int)` on very long digit strings.
- PhpNumeric.IntCastOfDecimal: does not model the platform-width saturation of `(int)`, and floats are not modelled.
- Doctrine's identity map is modelled only as far as the bundle uses it: a persist of a new entity inserts a row with a fresh id, and flush fails when the database is offline or the token index is violated. The corrected save's update of a stored row is the only other write.
- SubmissionService.ContactSubmissionService.Gate: the rate limiter reads the current request from the request stack; the model takes it to be the request handed to process(), so the case of no current request (identity 'unknown') during process() is not modelled.
- SubmissionService.ContactSubmissionService.CheckGates: the same as Gate, the current request is the processed one.
- For custom entity classes, property names are compared in lower case, as PHP compares method names.
- DoctrineStorage.FindRowByToken: for a custom entity class that does not map `verificationToken`, Doctrine's `findOneBy` (src/Storage/DoctrineStorage.php:130-131) throws an unrecognized-field error; the model finds no row instead, so `verifyMessage` refuses the token as unknown. Both end `verifyMessage` in a refusal with nothing changed; the kind of error differs.
- The validation that Symfony's constraint constructors perform on their options is not modelled. A constraint is its kind and its options.
- `getFilters`, which registers `contact_trans` with Twig, is not modelled.
- Some lemmas about form data require the field names to be distinct (`UniqueKeys`), which a Symfony form guarantees for its children.

## Findings

| source | as written | input that shows it | evidently intended | confidence | as-written member | corrected member |
|---|---|---|---|---|---|---|
| src/Storage/DoctrineStorage.php:39-70 | `save()` always builds a new entity with `fromModel` and persists it, so every save is an INSERT, even for a message that is already stored | `verifyMessage` on a message stored by the verification branch with token T: the verified copy is inserted as a second row with token T, and the unique index on `verification_token` (src/Entity/ContactMessageEntity.php:42) refuses it, so verification fails and no admin mail is sent | re-saving a stored message (one with an id) updates its row in place | not executed | DoctrineStorage.ResaveOfStoredMessageRejected | DoctrineStorage.ResaveByIdentityUpdates |

The Doctrine storage value of the pipeline says which save it uses (`byIdentity`): false is `save()` as written (`DoctrineStorage.DoctrineStorage.Save`), true is the corrected save (`DoctrineStorage.DoctrineStorage.SaveOrUpdate`). The pipeline's functions, methods and lemmas hold for both unless they name one. With the save as written, `SubmissionService.ContactSubmissionService.SubmitThenVerifyAsWritten` shows end to end that a message submitted for verification is refused by the storage when it is verified. With the corrected save, `SubmissionService.ContactSubmissionService.SubmitThenVerify` proves that it is accepted.
