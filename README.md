# RetroQuest team accounts, thought lists and action-item requests in Dafny

RetroQuest is a web application for team retrospectives. Teams create boards, add thoughts to
the happy, confused and unhappy columns, discuss them and turn them into action items. This
project models three pieces of its logic and proves what they promise.

- **Team accounts** (server, `TeamService`), in module `Teams`:
  - a team name becomes its board URI by lower-casing it and turning every space into a dash;
  - teams are looked up by their trimmed name, ignoring case, or by their lower-cased URI;
  - creating a team refuses a URI that is taken, and otherwise saves the team and its three
    default columns;
  - a failed login counts one more failed attempt; a successful login records the day and
    clears the counter.

  `TeamService` is a class. Its field `teams` maps each URI to a `Team` value and stands for
  the team repository. Its field `columnTitles` is the column-title repository, in the order
  titles were saved. Its methods update both step by step, as the Java service does. The
  invariant `WellKeyed` holds for every team stored under a URI:
  - the team's URI is that key;
  - the URI is derived from the team's name;
  - the name is trimmed.

  Because of this invariant, at most one team matches a name ignoring case, and that team is
  the one stored under the URI derived from the name.
- **Derived thought lists** (client, `ThoughtsState`), in modules `Filters` and
  `ThoughtsState`. The client keeps three lists:
  - the thoughts of one topic;
  - the ones of those not yet discussed (active);
  - the ones already discussed.

  The topic list filters the full list; the active and the discussed lists each filter the
  topic list. The model proves that they keep the order of
  the full list. It also proves that the active and discussed lists partition the topic list.
- **Action-item requests** (client, `getCreateActionItemRequest`), in module
  `ActionItemRequests`:
  - the assignees are joined with `", "` and cut to 50 characters;
  - a missing assignee list gives a null assignee;
  - the new item has no id and is neither completed nor archived.

Module `JavaStrings` models the Java string operations and the `int` increment the team
service uses. Module `Results` holds the `Option` and `Result` types used for nulls and
exceptions.

## Model

| member | source | states |
|---|---|---|
| `Teams.ConvertTeamNameToUri` | api/src/main/java/com/ford/labs/retroquest/team/TeamService.java:66-68 | the URI is as long as the name and contains no space and no upper-case ASCII letter. Each space becomes `-`, each upper-case ASCII letter becomes its lower-case partner, and every other character is kept |
| `Teams.ConvertTeamNameToUriIdempotent` | api/src/main/java/com/ford/labs/retroquest/team/TeamService.java:66-68 | converting an already converted name returns it unchanged |
| `Teams.UriIsLowerCase` | api/src/main/java/com/ford/labs/retroquest/team/TeamService.java:66-68 | a converted URI is its own lower-case form |
| `Teams.SameNameIgnoringCaseSameUri` | api/src/main/java/com/ford/labs/retroquest/team/TeamService.java:56-68 | names equal ignoring case convert to the same URI |
| `Teams.NameMatchesAreAtUri` | api/src/main/java/com/ford/labs/retroquest/team/TeamService.java:56-59 | in a well-keyed store, every team whose name matches a name ignoring case is stored under the URI derived from that name |
| `Teams.FindTeamByUri` | api/src/main/java/com/ford/labs/retroquest/team/TeamService.java:101-105 | the repository query finds a team exactly when one is stored under that URI. In a well-keyed store, the team found carries that URI |
| `Results.OrElseThrow` | api/src/main/java/com/ford/labs/retroquest/team/TeamService.java:56-64 | `Optional.orElseThrow`: a present value is returned, and an absent one gives the given exception |
| `Teams.FindTeamByNameIgnoreCase` | api/src/main/java/com/ford/labs/retroquest/team/TeamService.java:56-59 | finds a team exactly when some stored name equals the name ignoring case; the team found matches, is stored, and has the URI derived from the name |
| `Teams.StoredTeamFoundByOwnName` | api/src/main/java/com/ford/labs/retroquest/team/TeamService.java:56-59 | a stored team is what a lookup by its own name returns |
| `Teams.TeamService.GetTeamByName` | api/src/main/java/com/ford/labs/retroquest/team/TeamService.java:56-59 | succeeds exactly when a stored name equals the trimmed name ignoring case; the team found is stored under the URI of the trimmed name; otherwise fails with "board does not exist" |
| `Teams.TeamService.GetTeamByUri` | api/src/main/java/com/ford/labs/retroquest/team/TeamService.java:61-64 | succeeds exactly when a stored URI equals the given URI ignoring case, returning that stored team; otherwise fails with "board does not exist" |
| `Teams.TeamService.UrisMatchIgnoringCase` | api/src/main/java/com/ford/labs/retroquest/team/TeamService.java:61-64 | a stored URI equals the lower-cased URI exactly when the two are equal ignoring case |
| `Teams.TeamService.constructor` | api/src/main/java/com/ford/labs/retroquest/team/TeamService.java:42-54 | the service starts over the given encoder and stores, with the invariant holding |
| `Teams.TeamService.Save` | api/src/main/java/com/ford/labs/retroquest/team/TeamService.java:110 | saving stores the team under its URI, replaces any earlier version and keeps the invariant |
| `Teams.StoreKeepsWellKeyed` | api/src/main/java/com/ford/labs/retroquest/team/TeamService.java:107-110 | storing a well-formed team under its own URI keeps the store well keyed |
| `Teams.TeamService.CreateNewTeam` | api/src/main/java/com/ford/labs/retroquest/team/TeamService.java:77-81 | as for CreateTeamEntity, and the stored password is the encoder's encoding of the raw password |
| `Teams.TeamService.CreateTeamEntity` | api/src/main/java/com/ford/labs/retroquest/team/TeamService.java:98-114 | a taken URI fails with a data-integrity error naming the URI, and neither store changes; otherwise it adds exactly the new team and appends exactly the three default columns. The new team has the trimmed name, that name's URI, the given password and today's creation date |
| `Teams.TeamService.GenerateColumns` | api/src/main/java/com/ford/labs/retroquest/team/TeamService.java:116-135 | appends, in order, (happy, "Happy"), (confused, "Confused") and (unhappy, "Sad") for the team's URI, and changes no team |
| `Teams.CreatedTeamIsFound` | api/src/main/java/com/ford/labs/retroquest/team/TeamService.java:98-113 | after a creation the store is still well keyed, and the new team is found both by its trimmed name and by its URI |
| `Teams.TeamService.Login` | api/src/main/java/com/ford/labs/retroquest/team/TeamService.java:83-96 | an unknown name fails with "board does not exist" and changes nothing. A null or unmatched password stores the team with one more failed attempt and fails with "password invalid". A matched password stores and returns the team with today's login and zero failed attempts. No other team and no column changes |
| `Teams.TeamService.UpdateFailedAttempts` | api/src/main/java/com/ford/labs/retroquest/team/TeamService.java:137-140 | sets the counter, saves the team, and changes nothing else |
| `Teams.AfterFailedLogin` | api/src/main/java/com/ford/labs/retroquest/team/TeamService.java:86-89 | a failed login sets the counter to the Java `int` increment of the old count, a missing counter counting as 0. That is one more, except that the largest `int` wraps to the smallest. It leaves the last-login date and the identity of the team unchanged |
| `Teams.AfterSuccessfulLogin` | api/src/main/java/com/ford/labs/retroquest/team/TeamService.java:92-95 | a successful login sets the last-login date to today and the counter to 0, and keeps the identity of the team |
| `Teams.FailedLoginsAccumulate` | api/src/main/java/com/ford/labs/retroquest/team/TeamService.java:86-89 | n failed logins in a row add exactly n to the counter, short of overflow, and never touch the last-login date |
| `Teams.SuccessAfterFailuresResets` | api/src/main/java/com/ford/labs/retroquest/team/TeamService.java:86-95 | a successful login leaves the same team, however many failed logins came before it |
| `JavaStrings.ToLower` | api/src/main/java/com/ford/labs/retroquest/team/TeamService.java:62 | keeps the length and turns each upper-case ASCII letter into its lower-case partner. It changes nothing else |
| `JavaStrings.Replace` | api/src/main/java/com/ford/labs/retroquest/team/TeamService.java:67 | keeps the length and turns each occurrence of the replaced character into the replacement. It changes nothing else |
| `JavaStrings.TrimStart` | api/src/main/java/com/ford/labs/retroquest/team/TeamService.java:99 | the result is a suffix of the input; it does not start with a character up to a space, and only such characters were removed |
| `JavaStrings.TrimEnd` | api/src/main/java/com/ford/labs/retroquest/team/TeamService.java:99 | the result is a prefix of the input; it does not end with a character up to a space, and only such characters were removed |
| `JavaStrings.Trim` | api/src/main/java/com/ford/labs/retroquest/team/TeamService.java:57 | the result is a slice of the input, only characters up to a space surround it, and it neither starts nor ends with one |
| `JavaStrings.TrimIdempotent` | api/src/main/java/com/ford/labs/retroquest/team/TeamService.java:99 | trimming twice is trimming once |
| `JavaStrings.Increment` | api/src/main/java/com/ford/labs/retroquest/team/TeamService.java:88 | Java `int` + 1, wrapping from the largest `int` to the smallest |
| `Filters.Filter` | ui/src/react/state/ThoughtsState.ts:37 | keeps exactly the elements satisfying the predicate, and is no longer than its input |
| `Filters.FilterIsSubsequence` | ui/src/react/state/ThoughtsState.ts:37 | what a filter keeps stays in its original order |
| `Filters.FilterMultiplicity` | ui/src/react/state/ThoughtsState.ts:37 | each kept element keeps all its occurrences; rejected elements have none |
| `Filters.FilterIdempotent` | ui/src/react/state/ThoughtsState.ts:37 | filtering twice by one predicate is filtering once |
| `Filters.SubsequenceLength` | ui/src/react/state/ThoughtsState.ts:37 | an order-preserving selection is no longer than its source |
| `Filters.FilterPartition` | ui/src/react/state/ThoughtsState.ts:49-61 | filters by a predicate and by its negation share no element. Together they hold every element as often as the input does, and their lengths add up to the input's |
| `ThoughtsState.ThoughtsByTopic` | ui/src/react/state/ThoughtsState.ts:30-40 | exactly the thoughts whose topic is the requested one, in the order of the full list |
| `ThoughtsState.ActiveThoughtsByTopic` | ui/src/react/state/ThoughtsState.ts:42-52 | exactly the undiscussed thoughts of the topic list, in its order |
| `ThoughtsState.DiscussedThoughts` | ui/src/react/state/ThoughtsState.ts:54-64 | exactly the discussed thoughts of the topic list, in its order |
| `ThoughtsState.ThoughtsByTopicCounts` | ui/src/react/state/ThoughtsState.ts:37 | every thought of the topic appears as often as in the full list; other thoughts do not appear |
| `ThoughtsState.ThoughtsByTopicIdempotent` | ui/src/react/state/ThoughtsState.ts:37 | selecting a topic twice is selecting it once |
| `ThoughtsState.ActiveAndDiscussedPartitionTopic` | ui/src/react/state/ThoughtsState.ts:49-61 | active and discussed share no thought, and each topic thought is in exactly one of them. Their lengths add up to the topic list's, and together they hold its elements |
| `ThoughtsState.SelectionsKeepListOrder` | ui/src/react/state/ThoughtsState.ts:37-61 | the active and the discussed thoughts both keep the order of the full thought list |
| `ActionItemRequests.GetCreateActionItemRequest` | ui/src/react/types/CreateActionItemRequest.ts:20-31 | no id, not completed, not archived; team, task and date are copied. The assignee is null exactly when the list is missing. Otherwise it has at most 50 characters, is a prefix of the ", "-join, and is the whole join when that fits. Its length is the join's length, capped at 50 |
| `ActionItemRequests.Join` | ui/src/react/types/CreateActionItemRequest.ts:28 | the joined string starts with the first part. Together with the three lemmas below, its length, each part and each separator are fixed |
| `ActionItemRequests.JoinLength` | ui/src/react/types/CreateActionItemRequest.ts:28 | the join is as long as all parts plus one separator between each two |
| `ActionItemRequests.JoinContainsEachPart` | ui/src/react/types/CreateActionItemRequest.ts:28 | every part can be read back from the join at its offset |
| `ActionItemRequests.JoinSeparatesNeighbours` | ui/src/react/types/CreateActionItemRequest.ts:28 | the separator sits right after every part but the last, and the next part starts right after it |
| `ActionItemRequests.Prefix` | ui/src/react/types/CreateActionItemRequest.ts:28 | `substring(0, n)` gives the prefix of exactly n characters, or the whole string when it is shorter |
| `ActionItemRequests.ShortAssigneeListsAreKept` | ui/src/react/types/CreateActionItemRequest.ts:22-28 | assignees whose names and separators fit in 50 characters reach the request uncut |
| `ActionItemRequests.FittingAssigneesAreAllKept` | ui/src/react/types/CreateActionItemRequest.ts:28 | when the join fits in 50 characters, every assignee can be read back from the request |

## Left out

- `buildCsvFileFromTeam` (TeamService.java:70-75) is not modelled. It only passes repository results to `CsvFile`, and `CsvFile` is not part of this model.
- The repositories are in-memory stores: a map from URI to team, and a sequence of column titles. Persistence, transactions, generated ids and the entity identity of `save` are not modelled.
- A `Team` is a value. The Java entity is changed through setters and then saved, so the model shows the saved state but not aliasing between entity objects.
- The password encoder (bcrypt) is a pair of functions supplied to the service, and nothing else is assumed about them. Because `encode` is a function, the model encodes a given password the same way every time. bcrypt draws a fresh salt on each call, so two encodings of one password differ. No property of the model compares two encodings.
- Teams.TeamService.CreateNewTeam: states that the stored password is the encoder's output for the raw password. It does not state that this differs from the raw password, because the encoder is not modelled.
- `LocalDate.now()` and the client's `moment().format()` read a clock. Both are parameters (`today`, `todaysDate`).
- `Team.java` is not part of this model. A new team is taken to have no last-login date and no failed-attempt count (both null), because nothing is set on it before it is saved.
- Teams.FindTeamByNameIgnoreCase: requires the store to be well keyed (`WellKeyed`). The database does not enforce this. Every team created through `createTeamEntity` satisfies it, and the model keeps it as the service's invariant. The Spring query's behaviour when several names match is therefore not modelled.
- Case mapping (`toLowerCase`, `equalsIgnoreCase`, the case-insensitive query) covers ASCII letters only. Locale-dependent and non-ASCII case mappings are not modelled.
- Java `trim` removes characters up to U+0020, as modelled. A null name or a null create-request password makes the Java code throw; that case is not modelled.
- The client's `substring` counts UTF-16 code units. The model counts characters, one per code unit.
- The Recoil runtime is not modelled: atom-family defaults that setters overwrite, selector caching and re-evaluation. Only the filter expressions are.
- The `Topic` enumeration is not part of this model. Thought topics are strings, and the three thought topics are "happy", "confused" and "unhappy", the topics the server gives the default columns.
- `WebSocketService.ts`, the React and Angular components, the stories and the test files are not modelled. They are rendering, event wiring, network calls and UI assertions.
