# DreamMall core, modelled in Dafny

DreamMall is a Vue application that matches people by interests, skills and projects. This project models the logic of its core and proves properties about it. The core has these parts:

- **Profile storage.** `src/services/StorageService.js` and the older `services/StorageService.js` keep profiles in one `localStorage` slot. They seed it from `data.json`, or from fallback and hard-coded data when that is missing. They save with fresh ids, delete, and replace profiles.
- **User store.** `src/stores/user.js` is the Pinia store. It loads, merges, searches, saves, deletes and re-roles users. It also extracts the map layers for companies, projects and tables.
- **Matching.** `src/services/MatchingService.js` scores two profiles by shared interests, complementary skills and word overlap of texts and projects, then ranks the candidates. The older `services/MatchingService.js` does the same with its own ranking.
- **Chat.** `src/services/ChatService.js` and its older copy `services/ChatService.js` persist conversations. They use order-independent conversation keys, unread counts and mark-as-read, and post a welcome message. The first file also holds the socket client's handler registry.
- **Video and signalling.** The peer-connection registry of `src/services/WebRTCService.js`. The signalling client `client.js`, with its peer-connection and data-channel bookkeeping. The relay server `server.js`, with its connected-clients counter.
- **Developer tooling.**
  - the in-app error console `src/services/errorLogger.js`;
  - the lint status service `src/services/lintService.js`;
  - the ESLint output shaping and glob selection of `vite-eslint-plugin.js` and `src/scripts/lint-checker.js`;
  - the report of `analyze-lint-errors.js`;
  - the route table and guard of `src/router/index.js`.

Each JavaScript module is a Dafny module: Profiles, ProfileStorage, LegacyStorage, UserStore, Matching, ChatStore, ChatClient, PeerRegistry, SignalingClient, Relay, ErrorLog, LintFormat, LintGlob, LintStatus, LintAnalysis and Router. Three shared modules support them:

- `Wrappers` holds `Option` and `Result`.
- `Strings` holds JavaScript string operations: ASCII `toLowerCase`, `includes`, `trim`, `split`, `replace` with a global pattern, decimal writing and reading.
- `Seqs` holds filtering, counting, `slice(0, n)`, and a stable descending sort with its sortedness and stability proofs.

State is immutable: every operation takes the state and returns the new one. Some things are parameters instead of being modelled:

- `localStorage` is a value: absent, stored, or unreadable.
- A `data.json` fetch is an outcome: not found, loaded, or not an array.
- Sockets and `RTCPeerConnection`s are opaque handles.
- Clocks and the ESLint results are inputs.
- A side effect such as a socket emit, a stream stop or a console entry comes back as a list of effects.

JavaScript numbers that are ratios are `real`. `Math.round(x)` is `floor(x + 1/2)`.

Where a comment and the code disagree, the model follows the code. `server.js` forwards a chat message with `io.emit`, which reaches the sender too, although the comment at `server.js:61` says "all other clients". `Relay.Chat` therefore sends the message to every client.

## Model

| member | source | states |
|---|---|---|
| Profiles.FindIndex | src/services/StorageService.js:247 | the index found is the first profile carrying the id; no index exactly when no profile carries it |
| Profiles.MaxId | src/services/StorageService.js:254 | the maximum of the ids: no id exceeds it and some profile carries it |
| Profiles.NextId | src/services/StorageService.js:254 | a new profile's id is the largest stored id plus one, or 1 for an empty list; so it is larger than every stored id and carried by none |
| Profiles.SaveWithFreshId | src/services/StorageService.js:246-256 | a known id replaces the first profile with that id in place and leaves every other position alone; an unknown id is replaced by the largest stored id plus one (1 for an empty list) and the profile is appended at the end |
| Profiles.RemoveId | src/services/StorageService.js:273 | deleting keeps exactly the profiles whose id differs: the id is gone afterwards, every other profile survives as often as it occurred, nothing new appears |
| Profiles.RemoveIdSplits | src/services/StorageService.js:273 | deletion works element by element (it distributes over concatenation) and is the identity on a list without the id |
| Profiles.SaveThenFind | src/services/StorageService.js:244-259 | a save is seen by the next lookup: the first profile with the saved id is the saved profile, and the list grows by at most one |
| Profiles.SaveThenRemove | src/services/StorageService.js:244-279 | creating a profile and then deleting the id it was given restores the list |
| Profiles.FindAuth | src/services/StorageService.js:90 | the login account found carries the id; none is found exactly when no account carries it |
| Profiles.AppendMissing | src/services/StorageService.js:102-116 | adding the missing accounts only appends, at most one profile per account |
| Profiles.AppendMissingCovers | src/services/StorageService.js:102-116 | after the missing accounts are added, every login account has a profile |
| Profiles.AppendMissingAppendsAccounts | src/services/StorageService.js:102-116 | every appended profile is the generated profile of an account whose id the list lacked |
| Profiles.AppendMissingNothingMissing | src/services/StorageService.js:102-116 | when every account already has a profile nothing is appended |
| Profiles.MergedIds | src/services/StorageService.js:88-99 | merging the passwords in never changes an id: the merged list carries exactly the ids of the loaded one |
| Profiles.MergePrefix | src/services/StorageService.js:88-116 | the merge keeps every loaded profile at its position, merged with its account, and adds at most one profile per account after them |
| Profiles.MergeTail | src/services/StorageService.js:88-116 | after the merge every account has a profile; what is appended is the generated profile of an account the loaded data lacked; nothing is appended when none is missing |
| Profiles.MergeServiceProperties | src/services/StorageService.js:88-116 | the profile service's merge: only the password of a profile with an account changes, others pass through unchanged, no role is set, and an appended account is named after its e-mail prefix with empty skills and interests |
| Profiles.MergeStoreProperties | src/stores/user.js:134-171 | the user store's merge: the test user (id 2) gets the account password and the admin role, other profiles pass through unchanged, and exactly when the test user is missing it is appended as an admin |
| Profiles.FallbackProfiles | src/services/StorageService.js:136-153 | one fallback profile per account, in order, with its id, e-mail, password, e-mail prefix as name and the fallback bio |
| Profiles.HardcodedData | src/services/StorageService.js:159-211 | the hard-coded data is the test user, Anna and Jan, with ids 2, 3 and 4 in that order |
| Profiles.LoadAndMerge | src/services/StorageService.js:57-130 | loading always ends with a non-empty list in which every login account has a profile; loaded data keeps its profiles at their positions; a non-array gives the fallback profiles; no data gives the three hard-coded profiles with the test user's password |
| Profiles.StoreLoadMakesAdmin | src/stores/user.js:103-188 | after the user store's load, every profile with the test user's id has the test password and the admin role |
| ProfileStorage.GetAllProfiles | src/services/StorageService.js:217-227 | the stored list, and the empty list for a missing or unparsable entry |
| ProfileStorage.LoadAndStore | src/services/StorageService.js:118-124 | the merged list is what the entry holds afterwards, and every login account is in it |
| ProfileStorage.InitializeStorage | src/services/StorageService.js:32-50 | a non-empty stored list is kept untouched unless a reset is forced; otherwise the merged data is loaded and stored; either way the result is non-empty and equals what the entry now holds |
| ProfileStorage.InitializeTwice | src/services/StorageService.js:32-50 | initialising is idempotent: a second unforced run changes nothing, whatever the data source says then |
| ProfileStorage.ResetToInitialData | src/services/StorageService.js:233-238 | a reset stores a freshly merged list in which every login account has a profile |
| ProfileStorage.ResetIsForcedInitialize | src/services/StorageService.js:233-238 | a reset is the same as a forced initialisation, and as an unforced one from an empty entry |
| ProfileStorage.SaveProfile | src/services/StorageService.js:244-264 | after a save the entry's first profile with the saved id is the saved profile; an update replaces the first profile with that id in place and leaves every other position as it was; a new profile keeps its fields, gets the largest stored id plus one (1 on an empty list), and is appended |
| ProfileStorage.DeleteProfile | src/services/StorageService.js:270-279 | after a delete no stored profile carries the id and every other profile is kept in order |
| ProfileStorage.CreateThenDelete | src/services/StorageService.js:244-279 | creating a profile and deleting its id restores the stored list |
| ProfileStorage.UpdateAllProfiles | src/services/StorageService.js:327-338 | a list is stored and reported as success; a non-array is refused with false and leaves the entry alone |
| LegacyStorage.InitializeStorage | services/StorageService.js:12-16 | the initial data is written only into a missing entry; an existing one, readable or not, is kept |
| LegacyStorage.InitializeIdempotent | services/StorageService.js:12-16 | initialising twice is the same as initialising once |
| LegacyStorage.GetAllProfiles | services/StorageService.js:22-25 | the stored list, the empty list for a missing entry, and a parse error exactly for an unreadable one |
| LegacyStorage.Upsert | services/StorageService.js:33-41 | a known id replaces the first profile with it in place; an unknown one is appended as given, without a new id |
| LegacyStorage.UpsertIdempotent | services/StorageService.js:31-44 | saving the same profile twice is the same as saving it once |
| LegacyStorage.SaveProfile | services/StorageService.js:31-44 | a save throws exactly on an unreadable entry; otherwise the entry holds the updated list |
| LegacyStorage.DeleteProfile | services/StorageService.js:50-54 | a delete throws exactly on an unreadable entry; otherwise the entry keeps only the profiles with another id |
| LegacyStorage.SaveNewThenDelete | services/StorageService.js:31-54 | saving a profile with a new id and deleting it restores the entry |
| UserStore.FilteredUsers | src/stores/user.js:38-47 | an empty search term shows every user; otherwise exactly the users whose name, a skill or an interest contains the term, ignoring case, are shown |
| UserStore.FilteredUsersAppend | src/stores/user.js:42-46 | the search keeps the users' order: it works user by user |
| UserStore.FilteredUsersIdempotent | src/stores/user.js:38-47 | searching the search result again for the same term changes nothing |
| UserStore.GetUserById | src/stores/user.js:49-51 | the user found carries the numeric id and is the first such user; null exactly when no user has it, and always for a non-numeric id |
| UserStore.LoadUsers | src/stores/user.js:58-87 | a non-empty stored list is shown as it is; otherwise, or on a forced reset, the merged data is stored and shown, with every login account present and the test user an admin |
| UserStore.ResetToInitialData | src/stores/user.js:271-275 | a reset shows and stores freshly merged data, with every login account present and the test user an admin; every other field of the store, the last error included, is unchanged |
| UserStore.ResetIsForcedLoad | src/stores/user.js:57-87 | a reset is a forced `loadUsers` except that it keeps the last error instead of clearing it |
| UserStore.SaveUser | src/stores/user.js:315-349 | the store shows what it stored; an update replaces the first user with the id in place; a new user gets the largest stored id plus one (1 for none) and is appended; editing ends; selection, matching and search are untouched |
| UserStore.SaveThenGet | src/stores/user.js:315-349 | after a save, looking up the saved id finds the saved user |
| UserStore.ClearMatching | src/stores/user.js:292-295 | clearing the matching empties the results and the matched user and touches nothing else |
| UserStore.DeleteUser | src/stores/user.js:351-384 | the stored and shown list lose every user with the id and keep the others; the matching and the selection are cleared exactly when they refer to the deleted id |
| UserStore.DeleteIdempotent | src/stores/user.js:351-384 | after a delete the id is not found, and deleting it again changes nothing |
| UserStore.UpdateUserRole | src/stores/user.js:577-610 | a role change succeeds exactly for "admin" or "user" and a stored id; an invalid role or an unknown id records the error and writes nothing; a success changes only the role of the first user with the id |
| UserStore.UpdateUserRoleIdempotent | src/stores/user.js:577-610 | setting the same role again stores the same list |
| UserStore.UpdateAllUsers | src/stores/user.js:429-447 | a list is stored and shown; a non-array is refused with the error recorded and nothing written |
| UserStore.SelectForMatching | src/stores/user.js:286-290 | the selected user is remembered and the results are the top-ten ranking of the stored users against it: other stored users, each with its own scored entry, best first |
| UserStore.Entry | src/stores/user.js:455-467 | a place's map entry keeps its two coordinates, names its owner and carries a name that is never empty, the place's own or the layer's default |
| UserStore.IndexedEntries | src/stores/user.js:473-487 | one entry per place with two coordinates, each carrying its place's index and nothing else |
| UserStore.IndexedEntriesComplete | src/stores/user.js:473-487 | every place with two coordinates has its entry, after the entries of the places before it |
| UserStore.EntriesFromSound | src/stores/user.js:473-487 | the entries from a position on are those of the locatable places from there, one each |
| UserStore.EntriesFromComplete | src/stores/user.js:473-487 | from any position on, every locatable place has its entry, placed after those of earlier locatable places |
| UserStore.CompaniesOf | src/stores/user.js:453-489 | a user's companies are the firma icon and the company list, all owned by the user, all with two coordinates |
| UserStore.ProjectsOf | src/stores/user.js:498-540 | a user's projects come from the projekt icons and both project lists, all owned by the user, all with two coordinates |
| UserStore.TablesOf | src/stores/user.js:549-571 | a user's meetup tables name the user as host |
| UserStore.CollectShape | src/stores/user.js:453-489 | every collected entry belongs to one of the users, has two coordinates, and has the shape its layer promises |
| UserStore.CollectSplit | src/stores/user.js:453 | the entries of each user sit, in one block, between those of the users before and after it |
| UserStore.ExtractCompanies | src/stores/user.js:450-492 | every company entry has an owner among the users, two coordinates, and comes from a firma icon or a company |
| UserStore.ExtractProjects | src/stores/user.js:494-543 | every project entry has an owner among the users and two coordinates |
| UserStore.ExtractTables | src/stores/user.js:545-574 | every table entry has an owner among the users, two coordinates, and names its owner as host |
| UserStore.IndexedEntriesHas | src/stores/user.js:473-487 | the entry of every place with two coordinates is among the entries of its list, indexed by its position |
| UserStore.CollectHas | src/stores/user.js:453 | an entry of one user is among the entries collected for all users |
| UserStore.ExtractCompaniesHasFirma | src/stores/user.js:455-471 | the firma icon of every user, when it has two coordinates, is on the companies layer |
| UserStore.ExtractCompaniesComplete | src/stores/user.js:473-487 | every company of every user that has two coordinates is on the companies layer, with its position as index |
| UserStore.ExtractProjectsComplete | src/stores/user.js:494-543 | every projekt icon, own project and contributed project of every user that has two coordinates is on the projects layer, with its position as index |
| UserStore.ExtractTablesComplete | src/stores/user.js:545-574 | every tisch icon of every user that has two coordinates is on the tables layer, with its position as index |
| UserStore.ConcatFromUser | src/stores/user.js:453-574 | appending two lists of a user's place entries gives a list of that user's place entries |
| UserStore.IndexedFromUser | src/stores/user.js:473-487 | every indexed entry of a user's list is the entry of the place of that list its index names |
| UserStore.EntriesForSound | src/stores/user.js:453-574 | every entry of a user on any layer is the entry of the firma icon or of a listed place of that user |
| UserStore.ConsFromSomeUser | src/stores/user.js:453 | entries of the first user followed by entries of later users are all entries of some user |
| UserStore.CollectSound | src/stores/user.js:453-574 | every collected entry is the entry of a place of one of the users |
| UserStore.ExtractSound | src/stores/user.js:450-574 | the three layers hold nothing but entries of the users' places, each a firma icon or the place its index names |
| Matching.WordPrefix | src/services/MatchingService.js:114 | the piece before the first non-word character: all word characters, and it stops exactly at a non-word one or the end |
| Matching.WordsOf | src/services/MatchingService.js:114 | a word is kept exactly when it is a maximal run of word characters of the text (a piece of the split at `\W+`) and is longer than three characters |
| Matching.Jaccard | src/services/MatchingService.js:117-127 | the shared-over-distinct ratio lies in [0, 1]; it is 0 exactly when no word is shared and 1 exactly when both sets are the same non-empty set |
| Matching.JaccardSymmetric | src/services/MatchingService.js:117-127 | the ratio does not depend on the order of the two word sets |
| Matching.UnionSplit | src/services/MatchingService.js:125 | the distinct words of both texts split into those of only the first, of only the second, and the shared ones |
| Matching.FullOverlap | src/services/MatchingService.js:117-127 | as many shared words as distinct words happens only for two equal word sets |
| Matching.Ratio | src/services/MatchingService.js:127 | a share `m / n` times `n` is `m`; it lies in [0, 1] and is 0 exactly for none and 1 exactly for all |
| Matching.TextSimilarity | src/services/MatchingService.js:113-128 | text similarity lies in [0, 1], is 0 when neither text has a long word, and is 1 exactly when both texts have the same non-empty word set |
| Matching.TextSimilaritySymmetric | src/services/MatchingService.js:113-128 | text similarity is symmetric, and a text with a long word is fully similar to itself |
| Matching.BestAgainst | src/services/MatchingService.js:143-148 | the best similarity of one project against a list bounds every comparable pair and is attained by one (or is 0) |
| Matching.ProjectSimilarity | src/services/MatchingService.js:136-152 | project similarity is 0 for an empty list, and otherwise the maximum over the pairs in which both descriptions are present: it bounds every such pair and is attained by one (or is 0) |
| Matching.JsRound | src/services/MatchingService.js:103 | rounding lands within half a unit of the value, halves going up |
| Matching.Percentage | src/services/MatchingService.js:103 | the percentage lies in 0..100, is 100 from 80 points on and 0 for no points |
| Matching.PercentageMonotone | src/services/MatchingService.js:103 | a higher score never gives a lower percentage |
| Matching.Shared | src/services/MatchingService.js:17-19 | the shared interests are exactly the first user's interests that the second user also lists, each as often as the first user lists it |
| Matching.Missing | src/services/MatchingService.js:27-29 | the complementary skills are exactly the first user's skills that the second user lacks, each as often as the first user lists it |
| Matching.SharedMissingSplit | src/services/MatchingService.js:15-33 | the shared and the missing entries together account for every entry of the first list |
| Matching.TextBonus | src/services/MatchingService.js:36-38 | a text field is compared exactly when both profiles fill it, with a similarity in [0, 1] |
| Matching.SharedInterests | src/services/MatchingService.js:16-23 | interests are compared only when both profiles list them; otherwise none are shared |
| Matching.ComplementarySkills | src/services/MatchingService.js:26-33 | skills are compared only when both profiles list them; otherwise none are complementary |
| Matching.SimilaritiesOf | src/services/MatchingService.js:35-98 | every similarity that enters the bonus lies in [0, 1]; projects are compared exactly when both profiles list own projects |
| Matching.Bonus | src/services/MatchingService.js:35-98 | the weighted bonus (15, 20, 15, 10, 10) is between 0 and 70 points |
| Matching.BonusMonotone | src/services/MatchingService.js:35-98 | raising any similarity, a skipped one counting as 0, never lowers the bonus |
| Matching.BonusFull | src/services/MatchingService.js:35-98 | the bonus is the full 70 points exactly when all five similarities were computed and equal 1 |
| Matching.BonusZero | src/services/MatchingService.js:35-98 | the bonus is 0 exactly when every similarity was skipped or computed as 0 |
| Matching.Attributes | src/services/MatchingService.js:40-97 | for each category the list holds exactly the attribute its check pushes: goals, DreamMall goals and collaboration with their rounded percentage when above 0.3, the project remark for any project similarity above 0, value orientation when above 0.4; nothing else, at most five |
| Matching.Cleared | src/services/MatchingService.js:40-45 | a similarity attribute is made exactly when the similarity was computed and lies above the threshold, under its category with the similarity rounded to a whole percent |
| Matching.ProjectRemark | src/services/MatchingService.js:79-84 | the project remark "Gemeinsamer Projektbereich" is made exactly when the project similarity was computed and lies above 0, under "Ähnliche Projekte" |
| Matching.MatchScore | src/services/MatchingService.js:7-105 | the score is 10 points per shared interest plus 5 per complementary skill plus the bonus of the two profiles' similarities, at most 70; the attributes are those the similarities clear; the percentage lies in 0..100 |
| Matching.MatchScoreFloor | src/services/MatchingService.js:7-105 | the interest and skill points are a floor: the percentage is at least what they alone would give |
| Matching.OverlapScore | src/services/MatchingService.js:160-175 | the overlap is 0 when either list is empty, lies in 0..100, is 100 exactly when every user item has a case-insensitive match, and 0 exactly when none has |
| Matching.OverlapScoreIsPercent | src/services/MatchingService.js:165-174 | on two non-empty lists the overlap is the percentage of the user's items that some candidate matches ignoring case |
| Matching.Percent | src/services/MatchingService.js:174 | a share of matches in percent: the result times the total is 100 times the matches, so it is 100 exactly for all and 0 exactly for none |
| Matching.ScoreCandidate | src/services/MatchingService.js:192-214 | a candidate's entry carries the candidate, the match percentage as score, the details of the detailed match, and the overlap scores of the user's and the candidate's skills and interests (missing lists as empty), each in 0..100 |
| Matching.Others | src/services/MatchingService.js:190 | the candidates are exactly the profiles whose id differs from the user's |
| Matching.ScoreAll | src/services/MatchingService.js:192-214 | one scored entry per candidate, in list order |
| Matching.DrawnFromScored | src/services/MatchingService.js:192-219 | an entry taken from the scored list is a candidate with its own score |
| Matching.FindTopMatches | src/services/MatchingService.js:184-220 | nothing for a missing user or list; otherwise min(topN, number of others) entries drawn without repetition from the scored candidates (a sub-multiset), each another user with its own score, in non-increasing score order |
| Matching.FindTopMatchesKeepsBest | src/services/MatchingService.js:216-219 | every scored candidate left out of the result scores no higher than every entry kept |
| Matching.FindTopMatchesTiesInOrder | src/services/MatchingService.js:216-219 | ties keep list order: for each score, the kept entries with that score are the first scored candidates with it, as the stable `sort` gives |
| Matching.LegacyFindTopMatches | services/MatchingService.js:161-171 | the older ranking: min(limit, number of others) entries drawn without repetition from the ranked candidates (a sub-multiset), each another user with its own match result, in non-increasing raw score order |
| Matching.LegacyKeepsBest | services/MatchingService.js:168-170 | every ranked candidate left out scores no higher than every entry kept |
| Matching.LegacyTiesInOrder | services/MatchingService.js:168-170 | ties keep list order: for each raw score, the kept entries with it are the first ranked candidates with it |
| Matching.RankAll | services/MatchingService.js:162-167 | every candidate with its match result, in list order |
| Matching.LegacyRankingByPercentage | services/MatchingService.js:161-171 | ranking by raw score keeps the percentages in non-increasing order too |
| ChatStore.ConversationId | src/services/ChatService.js:89-93 | for any two integer ids, negative ones included, the key splits back at its underscore into the smaller id and the larger id as written |
| ChatStore.ConversationIdSymmetric | src/services/ChatService.js:89-93 | both partners compute the same key, whatever the order of the ids |
| ChatStore.ConversationIdInjective | services/ChatService.js:86-90 | two keys are equal exactly when they name the same pair of ids |
| ChatStore.GetMessages | src/services/ChatService.js:15-19 | a known conversation's messages, and none for an unknown key |
| ChatStore.SendMessage | src/services/ChatService.js:22-41 | the message, stamped with the clock's id and time, is appended to its conversation (created if missing); other conversations are untouched |
| ChatStore.MarkOne | src/services/ChatService.js:77-82 | a message is not unread for the user afterwards; only its read flag may change, and the user's own messages stay as they were |
| ChatStore.MarkAll | src/services/ChatService.js:77-82 | every message of the conversation is marked, positions kept |
| ChatStore.MarkAsRead | src/services/ChatService.js:72-86 | in a known conversation every message someone else sent becomes read and nothing else changes; an unknown key and other conversations are untouched |
| ChatStore.MarkAsReadIdempotent | src/services/ChatService.js:72-86 | marking as read twice is the same as once |
| ChatStore.MarkAsReadClearsUnread | src/services/ChatService.js:72-86 | after marking, the conversation shows no unread message for that user |
| ChatStore.CreateWelcomeMessageIfNeeded | src/services/ChatService.js:100-117 | a missing or empty conversation becomes exactly one unread system welcome; a conversation with messages and all others are untouched |
| ChatStore.WelcomeOnce | src/services/ChatService.js:100-117 | the welcome is written only once: a second call finds it and changes nothing |
| ChatStore.Unread | src/services/ChatService.js:62 | the unread count is at most the number of messages, and 0 exactly when none is unread for the user |
| ChatStore.Summary | src/services/ChatService.js:55-63 | a conversation's entry carries its key and its last message |
| ChatStore.UserConversations | src/services/ChatService.js:44-69 | exactly the non-empty conversations whose key names the user are listed, each with its summary |
| ChatStore.KeyNamesBothPartners | src/services/ChatService.js:53-60 | the key of a pair names both partners, and each one's other user is the partner |
| ChatStore.SentMessageIsListed | src/services/ChatService.js:22-69 | after sending in a pair's conversation, the sender's list shows it with the partner as other user and the new message as last |
| ChatClient.Initial | src/services/ChatService.js:120-132 | a new client has no socket, is not connected, has no id, and holds an empty handler list for each of the six known events |
| ChatClient.Connect | src/services/ChatService.js:134-141 | connecting with a socket already present changes nothing; otherwise only the socket is stored, still unconfirmed |
| ChatClient.OnConnect | src/services/ChatService.js:143-148 | the server's confirmation marks the client connected with the socket's id and tells exactly the `connected` handlers that id |
| ChatClient.OnDisconnect | src/services/ChatService.js:150-154 | a dropped connection clears only the connected flag and tells exactly the `disconnected` handlers |
| ChatClient.Disconnect | src/services/ChatService.js:182-190 | disconnecting drops socket, flag and id and keeps the handlers; without a socket nothing changes |
| ChatClient.DisconnectStopsSending | src/services/ChatService.js:182-196 | after a disconnect nothing can be sent |
| ChatClient.SendMessage | src/services/ChatService.js:192-205 | a message is emitted exactly when the client is connected and has a socket, and the result is true exactly when that emit succeeds |
| ChatClient.On | src/services/ChatService.js:207-212 | registering appends the handler to its event's list (creating it) and leaves every other event and the connection alone |
| ChatClient.Off | src/services/ChatService.js:214-217 | removing takes every registration of the handler off its event's list, keeps the rest in order, and leaves other events alone; an event without a list is untouched |
| ChatClient.OnThenOff | src/services/ChatService.js:207-217 | registering a new handler and removing it restores the registry |
| ChatClient.Notify | src/services/ChatService.js:219-228 | every handler of the event is called once, in registration order, with the payload; an event without a list calls nothing |
| ChatClient.NotifyAfterOn | src/services/ChatService.js:207-228 | a newly registered handler is called after all earlier ones on the next notification |
| PeerRegistry.CreatePeerConnection | src/services/WebRTCService.js:41-82 | a registered peer gets its existing connection back and nothing changes; otherwise the new connection gets the callbacks and every local track and is registered; existing peers are untouched |
| PeerRegistry.GetPeerConnection | src/services/WebRTCService.js:144-149 | afterwards the peer is registered with the connection returned, exactly one peer is added at most, and nothing else changes |
| PeerRegistry.GetTwice | src/services/WebRTCService.js:144-149 | a connection is created at most once per peer: asking again returns the same one and changes nothing |
| PeerRegistry.ClosePeerConnection | src/services/WebRTCService.js:152-165 | a known peer's callbacks are detached before its connection is closed, and the peer is unregistered; an unknown peer is a no-op |
| PeerRegistry.CloseIdempotent | src/services/WebRTCService.js:152-165 | closing twice is the same as closing once |
| PeerRegistry.CloseAllPeerConnections | src/services/WebRTCService.js:168-172 | every registered connection is closed, each right after its callbacks are detached, and no peer is left; stream and callback are kept |
| PeerRegistry.StopLocalStream | src/services/WebRTCService.js:33-38 | every track of the local stream is stopped, in order, and the stream is forgotten; without a stream nothing happens |
| PeerRegistry.StopIdempotent | src/services/WebRTCService.js:33-38 | stopping twice is the same as stopping once |
| PeerRegistry.SetOnTrack | src/services/WebRTCService.js:175-177 | registering a track callback replaces the previous one and touches nothing else |
| PeerRegistry.DeliverTrack | src/services/WebRTCService.js:63-67 | a remote track calls the stored callback once, with the peer id and the stream, exactly when the peer's connection is registered with its callbacks attached and a callback is stored; otherwise nothing is called |
| PeerRegistry.AttachedKept | src/services/WebRTCService.js:41-82 | creating and closing connections keep every registered connection's callbacks attached |
| PeerRegistry.TrackAfterCreate | src/services/WebRTCService.js:63-67 | once a peer's connection exists, its remote track reaches the stored callback |
| PeerRegistry.NoTrackAfterClose | src/services/WebRTCService.js:152-165 | after closing a peer's connection, a track for that peer reaches nobody |
| PeerRegistry.OnTrackReplaces | src/services/WebRTCService.js:175-177 | callbacks do not stack: after two registrations only the later one is called, as after the later one alone |
| SignalingClient.Initial | client.js:12-28 | a started chat has no connections and no channels and shows only the ready line |
| SignalingClient.Short | client.js:79 | a peer is shown by at most its first six characters followed by an ellipsis |
| SignalingClient.OnConnect | client.js:52-55 | the socket's id becomes known and shown; nothing is emitted |
| SignalingClient.OnConnected | client.js:57-61 | the relay's id is shown with one line carrying the relay's greeting, or "Success" when it is missing or empty |
| SignalingClient.OnNewUser | client.js:63-66 | a new user gets a connection as initiator and a channel labelled "chat"; the offer is forwarded to it (and announced) only once it has been created |
| SignalingClient.OnUserDisconnected | client.js:68-75 | a leaving user's connection is closed and both its connection and channel entries are dropped; an unknown user only gets the line |
| SignalingClient.OnChatMessage | client.js:77-81 | a relayed message is shown exactly when it does not carry this client's own id |
| SignalingClient.OnUserCount | client.js:83-85 | the number of users is shown |
| SignalingClient.OnOffer | client.js:88-103 | an offer registers a fresh connection for the sender, replacing any earlier one, without a channel; when the answer can be created it goes back and the chat shows the sender's short id, otherwise the failure is shown |
| SignalingClient.OnAnswer | client.js:105-115 | an answer is applied to the sender's connection when there is one and ignored otherwise |
| SignalingClient.OnCandidate | client.js:117-126 | a candidate is added to the sender's connection when there is one and ignored otherwise |
| SignalingClient.OnIceCandidate | client.js:150-154 | a real local candidate is forwarded to the connection's remote id; the end-of-candidates event sends nothing |
| SignalingClient.OnDataChannel | client.js:169-177 | an incoming channel becomes the remote id's channel, replacing an earlier one |
| SignalingClient.LatestChannelWins | client.js:176-177 | at most one channel per remote id: of two, the later one is kept and the others are untouched |
| SignalingClient.SendsTo | client.js:42-46 | a send goes to exactly the kept channels that are open |
| SignalingClient.SendMessage | client.js:31-49 | a box of whitespace changes nothing; otherwise the trimmed text is shown, emitted once to the relay, sent on every open channel and on nothing else, and the box is cleared |
| SignalingClient.TrackedPreserved | client.js:12-190 | every event keeps each channel paired with a connection for the same remote id |
| SignalingClient.DisconnectForgetsPeer | client.js:68-126 | after a user leaves nothing is kept for it, and a later answer or candidate from it is ignored |
| Relay.Connect | server.js:37-55 | a connection raises the counter; everyone, the newcomer included, gets the new count; the newcomer alone gets its id and the greeting; everyone else, and only they, learn of the newcomer |
| Relay.Chat | server.js:58-67 | a chat message reaches every connected socket, the sender included, stamped with the sender's id |
| Relay.Forward | server.js:70-89 | an offer, answer or candidate reaches exactly the named target, if it is connected and is not the sender, unchanged and marked with the sender's id |
| Relay.Disconnect | server.js:91-102 | a disconnect lowers the counter and every remaining socket is told who left, then the new count |
| Relay.CounterTracksConnections | server.js:35-102 | with fresh ids and disconnects of connected sockets only, the counter equals the number of connected sockets and never goes negative |
| Relay.CountBroadcastReachesEveryone | server.js:37-102 | the count each broadcast carries is the number of sockets it reaches |
| Relay.ConnectThenDisconnect | server.js:37-102 | a connection followed by its disconnection leaves the relay as it was, and the departure reaches exactly those told of the arrival |
| ErrorLog.LevelValue | src/services/errorLogger.js:15-23 | a level name is worth at most the error level's value |
| ErrorLog.LevelValueOfName | src/services/errorLogger.js:15-23 | a name that lowercases to a level's name, in any case, is worth that level |
| ErrorLog.UnknownIsDebug | src/services/errorLogger.js:22 | any other name, and a missing one, is worth the debug level |
| ErrorLog.ValuesDistinct | src/services/errorLogger.js:7-12 | the four levels have four distinct values |
| ErrorLog.TagLower | src/services/errorLogger.js:48-88 | the tag an entry is recorded under and the level's name lowercase to the same name |
| ErrorLog.Configure | src/services/errorLogger.js:26-27 | the console is enabled only by the exact text "true"; the minimum level is the value of the configured name, debug when it is missing |
| ErrorLog.Initial | src/services/errorLogger.js:30-42 | the console starts empty and unfiltered with an empty view, visible exactly when the debug flag is "true" and the console is enabled |
| ErrorLog.Construct | src/services/errorLogger.js:40-43 | assigning properties in class code fails at the first name that has only a getter, naming it; otherwise every name becomes an own property |
| ErrorLog.ConstructorThrows | src/services/errorLogger.js:42 | as written, constructing the logger fails at `this.filteredLogs = []` |
| ErrorLog.IntendedConstructorCompletes | src/services/errorLogger.js:41 | without that assignment the constructor completes with `maxLogs` as its only own property |
| ErrorLog.AddLog | src/services/errorLogger.js:86-110 | an entry that is not admitted changes nothing; an admitted one goes to the front and the buffer grows by one, or keeps its length by dropping the oldest entry once it would exceed 100 |
| ErrorLog.Record | src/services/errorLogger.js:48-83 | a logged message becomes the newest entry under the level's tag exactly when the console is enabled and the level reaches the configured one; otherwise nothing changes |
| ErrorLog.AddLogBounded | src/services/errorLogger.js:105-108 | the buffer never holds more than 100 entries |
| ErrorLog.FullBufferDropsOldest | src/services/errorLogger.js:103-108 | on a full buffer an admitted entry pushes out the oldest and keeps the rest in order |
| ErrorLog.Clear | src/services/errorLogger.js:126-128 | clearing empties the buffer and keeps visibility and filter |
| ErrorLog.ToggleVisibility | src/services/errorLogger.js:131-133 | toggling flips only the visibility |
| ErrorLog.ToggleTwice | src/services/errorLogger.js:131-133 | toggling twice restores the panel |
| ErrorLog.SetFilter | src/services/errorLogger.js:136-138 | setting the filter changes only the filter |
| ErrorLog.FilteredLogsAsWritten | src/services/errorLogger.js:141-148 | the view as written: everything under "all", and only logged entries otherwise |
| ErrorLog.AsWrittenShowsNothing | src/services/errorLogger.js:146-147 | as written, every filter but "all" shows nothing, since a string level is never strictly equal to a number |
| ErrorLog.AsWrittenHidesErrors | src/services/errorLogger.js:146-147 | as written, a buffer holding an error shows nothing under the "error" filter |
| ErrorLog.FilteredLogs | src/services/errorLogger.js:141-148 | the view as intended: everything under "all"; otherwise exactly the entries of the filter's level, newest first |
| ErrorLog.RecordedErrorIsShown | src/services/errorLogger.js:78-83 | with the "error" filter, an error just recorded is the first entry shown |
| ErrorLog.FiltersPartition | src/services/errorLogger.js:141-148 | an entry shows under a level's filter exactly when it is of that level |
| LintFormat.OrZero | vite-eslint-plugin.js:97-98 | a missing line or column is shown as 0 and a given one as itself |
| LintFormat.ItemOf | vite-eslint-plugin.js:95-102 | an item keeps its message's text, rule and severity and carries its file's displayed path |
| LintFormat.Items | vite-eslint-plugin.js:94-102 | a file's items are its messages, one for one and in order |
| LintFormat.FormatMessages | vite-eslint-plugin.js:94-111 | over one file, the errors are exactly the severity-2 items and the warnings exactly the severity-1 items, in order, each counted |
| LintFormat.FormatResults | vite-eslint-plugin.js:84-115 | over all files, the errors and warnings are the severity-2 and severity-1 items of all messages in input order, and the counts equal the list lengths |
| LintFormat.FormatSplitsBySeverity | vite-eslint-plugin.js:104-110 | an item lands among the errors exactly when its severity is 2 and among the warnings exactly when it is 1 |
| LintFormat.PluginFailure | vite-eslint-plugin.js:73-79 | a failed run reports one positionless error carrying the thrown message, one error, no warnings |
| LintFormat.RunLint | vite-eslint-plugin.js:68-81 | the plugin's run is the formatted results with paths relative to the working directory, or the failure report when ESLint throws |
| LintFormat.CheckerPath | src/scripts/lint-checker.js:41 | the checker shows a path with the first occurrence of the working directory and a slash removed |
| LintFormat.CheckerPathUnderCwd | src/scripts/lint-checker.js:41 | a path under the working directory is shown relative to it |
| LintFormat.CheckerFailure | src/scripts/lint-checker.js:12-25 | the checker's failed run reports one error at line 0, column 0, whose message is prefixed "Error running ESLint: " |
| LintFormat.RunLintCheck | src/scripts/lint-checker.js:7-26 | the checker's run is the formatted results with its own path display, or its failure report |
| LintGlob.Translate | vite-eslint-plugin.js:118-127 | the intended rewrite of a glob: the empty glob gives the empty expression, and a double star gives `.*` |
| LintGlob.DoubleStarAsWritten | vite-eslint-plugin.js:120-124 | as written, the glob `**` becomes `.[^/]*`, because the single-star pass rewrites the star that the double-star pass produced; the intended rewrite gives `.*` |
| LintGlob.EscapeDotsKeepsStars | vite-eslint-plugin.js:121 | escaping dots neither adds nor removes stars at the front and creates no double star |
| LintGlob.CharPasses | vite-eslint-plugin.js:121-124 | on a glob without a double star, the dot, star and question-mark passes together are the intended rewrite |
| LintGlob.Resolve | vite-eslint-plugin.js:11-17 | a given include or exclude list replaces the default, and a missing one keeps the default |
| LintGlob.EscapeDots | vite-eslint-plugin.js:121 | every dot of the result is preceded by a backslash, and a glob without dots is unchanged |
| LintGlob.ReplaceDotEscapes | vite-eslint-plugin.js:121 | the dot pass leaves no dot without a backslash in front of it |
| LintGlob.EscapeDotsRoundTrip | vite-eslint-plugin.js:121 | escaping loses nothing: reading each backslash-dot back as a dot gives the glob again |
| LintGlob.GlobToRegexAsWritten | vite-eslint-plugin.js:118-124 | the four passes of `minimatch` in order; on every glob without a double star they give the intended rewrite |
| LintGlob.SomeMatches | vite-eslint-plugin.js:44-45 | true exactly when the expression built from some pattern matches the file |
| LintGlob.ShouldLint | vite-eslint-plugin.js:41-45 | as written: a changed file is linted exactly when the expression `minimatch` builds from some include pattern matches it and the one from no exclude pattern does |
| LintGlob.ShouldLintIntended | vite-eslint-plugin.js:41-45 | the same decision through the intended rewrite, where a double star crosses directories |
| LintGlob.ShouldLintAgrees | vite-eslint-plugin.js:41-45 | when no include or exclude pattern has a double star, the decision as written is the intended one |
| LintGlob.ShouldLintDoubleStar | vite-eslint-plugin.js:41-45 | with the include pattern `**`, the decision as written tests `.[^/]*` where the intended one tests `.*` |
| LintStatus.FromReport | src/services/lintService.js:127-131 | a report from the linter is received with its error list and, when present, its warning list |
| LintStatus.Process | src/services/lintService.js:59-88 | a missing result sets the error status and changes nothing else; otherwise the lists are the result's (missing ones empty), the status is fail exactly when there are errors and pass exactly when there are none, and one console message is a warning, an info or a debug entry according to what was found |
| LintStatus.Notify | src/services/lintService.js:109-122 | every subscriber, in subscription order, receives the same snapshot of status, lists and run time |
| LintStatus.Subscribe | src/services/lintService.js:99-100 | subscribing appends the callback and changes nothing else |
| LintStatus.Unsubscribe | src/services/lintService.js:101-103 | the returned function removes every registration of the callback, keeps the others in order and changes nothing else |
| LintStatus.SubscribeThenUnsubscribe | src/services/lintService.js:99-104 | subscribing a new callback and then calling the returned function restores the service |
| LintStatus.UnsubscribedIsNotCalled | src/services/lintService.js:101-122 | after unsubscribing, no notification reaches the callback |
| LintStatus.SetResults | src/services/lintService.js:127-131 | external results are processed, the run time stamped, and every subscriber told the stamped state |
| LintStatus.RunLintCheck | src/services/lintService.js:18-54 | in production nothing changes and the answer is the fixed message; otherwise subscribers are told of the running state and then of the final one, a parsed answer is processed, counts as success and logs what processing logs, and any failed request empties both lists, sets the error status, logs one error and answers with the request's message |
| LintStatus.RunWithReport | src/services/lintService.js:18-67 | a run that gets a report back succeeds, takes the report's lists, and ends in fail exactly when the report has errors |
| Router.Resolve | src/router/index.js:8-46 | a path resolves to the record with that exact path, and any other path to the catch-all |
| Router.ProtectedRoutes | src/router/index.js:8-46 | exactly the profile list and the matching page need a signed-in user, exactly login and registration are hidden from one, and no route is both |
| Router.Navigate | src/router/index.js:62-68 | a navigation carries its path, its record's name and its record's meta |
| Router.RequiresAuth | src/router/index.js:67 | true exactly when some matched record needs a signed-in user |
| Router.HidesIfAuth | src/router/index.js:68 | true exactly when some matched record is hidden from signed-in users |
| Router.ViewName | src/router/index.js:64 | the tracked name is the route's name, or "unknown" when it is missing or empty |
| Router.Guard | src/router/index.js:62-87 | the guard sends to login exactly when the route needs a signed-in user and nobody is signed in, home exactly when it is hidden from a signed-in user who is signed in, and otherwise proceeds; it always records the view load first and adds one warning on the login redirect |
| Router.RedirectsSettle | src/router/index.js:62-87 | the target of every redirect proceeds, so the guard never loops |
| Router.WhoReachesWhat | src/router/index.js:8-87 | a signed-in user reaches every path but login and registration; a signed-out user every path but the profile list and matching |
| Router.ScrollBehavior | src/router/index.js:52-58 | a saved position is restored exactly when there is one, and otherwise the page scrolls to the top |
| LintAnalysis.Find | analyze-lint-errors.js:42 | the position found holds the key and is the first that does; no position means no entry has the key |
| LintAnalysis.FindFirst | analyze-lint-errors.js:42 | the first entry under a key is the one found |
| LintAnalysis.FindAbsent | analyze-lint-errors.js:42 | a key no entry has is not found |
| LintAnalysis.Upsert | analyze-lint-errors.js:42-50 | assigning under a key overwrites its entry in place, or appends a new key last, leaving every other entry where it was |
| LintAnalysis.UpsertLookup | analyze-lint-errors.js:42-50 | after an assignment the key reads back the assigned value and every other key reads what it read before |
| LintAnalysis.UpsertKeys | analyze-lint-errors.js:42-50 | an assignment keeps the keys distinct and adds exactly its key |
| LintAnalysis.LookupKeySet | analyze-lint-errors.js:42 | a key reads a value exactly when it is one of the table's keys |
| LintAnalysis.DistinctKeyCount | analyze-lint-errors.js:76-78 | a table with distinct keys has as many entries as keys |
| LintAnalysis.OccurrencesOf | analyze-lint-errors.js:29-39 | each of a file's messages is taken once, in order, with the file's displayed path |
| LintAnalysis.RuleOf | analyze-lint-errors.js:40 | a message is tallied under its rule id, or under "parsing-error" when the id is missing or empty |
| LintAnalysis.ExamplesOf | analyze-lint-errors.js:53-58 | each example keeps its message's text, displayed path, line and column |
| LintAnalysis.Push | analyze-lint-errors.js:50-59 | one more message raises the count by one, keeps the severity, and is added as an example only while there are fewer than three |
| LintAnalysis.Tally | analyze-lint-errors.js:39-63 | there are never more rule records than messages |
| LintAnalysis.ExpectedPush | analyze-lint-errors.js:42-59 | the record a rule should hold after one more message is the loop body's update of the record before it |
| LintAnalysis.BumpIsUpsert | analyze-lint-errors.js:42-59 | the loop body is an assignment under the message's rule |
| LintAnalysis.TallyLookup | analyze-lint-errors.js:39-63 | a rule has a record exactly when some message is tallied under it, and the record holds how many there are, the first one's severity and the first three as examples |
| LintAnalysis.TallyDistinct | analyze-lint-errors.js:39-63 | no rule has two records |
| LintAnalysis.MatchesNonEmpty | analyze-lint-errors.js:40 | some message is tallied under a rule exactly when the rule occurs |
| LintAnalysis.RuleCountIsDistinctRules | analyze-lint-errors.js:67-78 | there is one record per distinct rule |
| LintAnalysis.TotalUpdate | analyze-lint-errors.js:50 | replacing one record changes the sum of counts by the difference of the two counts |
| LintAnalysis.CountsAddUp | analyze-lint-errors.js:39-63 | the records' counts add up to the number of messages |
| LintAnalysis.FileTable | analyze-lint-errors.js:28-37 | there are never more file entries than results |
| LintAnalysis.FileTableLookup | analyze-lint-errors.js:28-37 | a path has an entry exactly when some file with an error or a warning is shown under it, and the entry is the last such file's |
| LintAnalysis.FileTableDistinct | analyze-lint-errors.js:28-37 | no path has two entries |
| LintAnalysis.RuleRows | analyze-lint-errors.js:67-69 | each rule row carries its rule's name, count, severity and examples, in the same order |
| LintAnalysis.FileRows | analyze-lint-errors.js:81-84 | each file row carries its path and error count, in the same order |
| LintAnalysis.Analyze | analyze-lint-errors.js:66-85 | the report counts every result, no more errors and warnings than messages and no more flagged files than results, and lists at most ten rules and ten files, the highest ranked |
| LintAnalysis.AnalysisCounts | analyze-lint-errors.js:39-78 | the rule count is the number of distinct rules and the rule counts add up to the number of messages |
| LintAnalysis.ListsRanked | analyze-lint-errors.js:67-84 | both lists run from the highest count down |
| LintAnalysis.LeftOutRuleRanksLower | analyze-lint-errors.js:67-80 | a rule left out of the top ten has no more messages than any rule in it |
| Seqs.SliceTo | analyze-lint-errors.js:80 | `slice(0, n)` keeps the first n elements, all of them when there are fewer, and counts a negative n from the end |
| Seqs.SortDescSorted | analyze-lint-errors.js:67-68 | the sort by descending key leaves the entries in descending order |
| Seqs.SortDescStable | analyze-lint-errors.js:67-68 | the sort keeps entries with equal keys in their original order, as a stable sort must |
| Seqs.TopByKey | analyze-lint-errors.js:67-84 | the first n of the sorted entries are at most n entries of the input, in descending order, none ranking below anything cut off |
| Seqs.TopRanked | analyze-lint-errors.js:80-83 | an entry cut off ranks no higher than every entry kept |
| Seqs.TopByKeyKeepsBest | src/services/MatchingService.js:216-219 | every entry of the input that the first n leave out ranks no higher than every entry kept |
| Seqs.WithKeyPrefix | src/services/MatchingService.js:218 | the entries with a given key in a prefix are a prefix of those in the whole list |
| Seqs.TopByKeyStable | src/services/MatchingService.js:216-219 | for every key, the kept entries with that key are the first entries of the input with it |
| Strings.ReadWrittenNumber | src/services/ChatService.js:53-60 | an id written into a conversation id reads back as the same id through `Number` comparison and `parseInt` |
| Strings.NatToStringInjective | src/services/ChatService.js:89-93 | different user ids are written differently |
| Strings.IntToString | src/services/ChatService.js:92 | a number is written as its digits, with a leading minus sign exactly when it is negative, and never contains an underscore |
| Strings.IntToStringInjective | src/services/ChatService.js:92 | different integers are written differently |
| Strings.Trim | client.js:32-33 | the trimmed message starts and ends with no whitespace, is a slice of the input, and is empty exactly when the input is all whitespace |
| Strings.ParseIntOf | src/services/ChatService.js:60 | on unsigned text, `parseInt` gives NaN exactly when the text is empty or does not start with a digit, and the value of an all-digit text |
| Strings.ParseIntIgnoresTail | src/services/ChatService.js:60 | `parseInt` reads digits followed by a non-digit as the digits alone |
| Strings.DigitPrefixOf | src/services/ChatService.js:60 | the leading digits of digits followed by a non-digit are those digits |
| Strings.NumberOf | src/services/ChatService.js:54-55 | on unsigned text, `Number` gives 0 for the empty text, the value of an all-digit text and NaN for anything else |
| Strings.NatToStringRoundTrip | src/services/ChatService.js:89-93 | a written id read back digit by digit is the id |
| Matching.DrawnFromRanked | services/MatchingService.js:162-167 | every ranked entry is a candidate paired with its own score against the target |
| UserStore.FirmaOf | src/stores/user.js:454-467 | every entry taken from the `firma` icon is of the firma kind, belongs to that user and has two coordinates |

## Left out

- Browser and server I/O is not modelled: `localStorage` reads and writes, `JSON.parse`/`stringify`, `fetch`, `alert`, `console` output, `process.exit`, `fs.writeFileSync`, and Express static serving and `listen`. Storage and fetch outcomes are values passed in and returned.
- `exportProfiles` and `importProfiles` (both storage services), and `exportAllUsers` and `importUsers` of the user store, are left out because they are DOM-anchor downloads and `FileReader` uploads. `logUserRoles` is left out because it only prints.
- The user store's `selectUser`, `clearSelectedUser`, `setSearchTerm`, `startEditing`, `startCreating` and `cancelEditing` are left out because each is a single field assignment. The search term and selection appear only as inputs to `UserStore.FilteredUsers` and `UserStore.SelectForMatching`.
- The probing of several `data.json` paths is collapsed into one outcome (`DataSource`). An empty-string `localStorage` entry is treated like an absent one.
- `WebRTCService`'s `initLocalStream`, `createOffer`, `handleOffer`, `handleAnswer`, `addIceCandidate` and its ICE callback are left out. They are asynchronous calls into the browser's RTC stack. The ICE server configuration and a constructor that throws are not modelled either.
- In `client.js`, these are not modelled:
  - the data channel's `onopen`, `onmessage` and `onclose` logging;
  - the ICE connection-state logging;
  - the clock prefix of chat lines;
  - a failing `setRemoteDescription` in the answer handler;
  - the Enter-key listener.
- In `src/services/ChatService.js`, `io()` socket creation and the error-console calls inside the socket handlers are left out. `isConnected` and `getSocketId` are plain getters and are not modelled. `ChatStore.UserConversations` returns a set, because the order of `Object.entries` is not modelled.
- `Date.now()`, `new Date().toISOString()` and `Math.random()` are parameters wherever an id or a timestamp needs them.
- In `src/services/errorLogger.js`, these are not modelled:
  - the metadata and stack attached to entries;
  - the `Date.now()`-plus-random entry id;
  - console echoing;
  - the wrappers `trackComponentMount` and `trackComponentUnmount`.

  `trackViewLoad` appears only as the info entry that `Router.Guard` returns.
- ErrorLog.Initial is the constructor as intended. As written it throws (see Findings); the rest of the model treats the view as the getter.
- Matching.JsRound works on exact reals. JavaScript rounds a product such as `similarity * 100` in binary floating point first, so a value just below a half can round differently; floating point is not modelled.
- Matching.Attributes states which attribute each category holds, not the order of the list; the order, goals then DreamMall goals, collaboration, projects and values, is the concatenation in its body.
- ChatStore.KeyNamesBothPartners and ChatStore.SentMessageIsListed read keys back for non-negative ids only, because Strings.ParseIntOf models unsigned text; ChatStore.ConversationId itself takes any integer.
- Matching.ScoreCandidate keeps the two overlaps as numbers; the `toFixed(1) + '%'` text of src/services/MatchingService.js:210-211 is not modelled.
- ErrorLog.LevelValue handles level names without JavaScript's object-prototype keys. A name such as "constructor" would read an inherited property and is treated as unknown.
- Strings.Lower folds ASCII letters only. JavaScript's `toLowerCase` also folds non-ASCII letters.
- `substring(0, 100)` on UTF-16 code units is approximated by characters in `LintStatus.RunLintCheck`.
- A lint status subscriber that throws is caught and logged by the source. The model calls every subscriber and omits that log entry.
- The router's `onError` handler, vue-router's case-insensitive and trailing-slash path matching, and the lazy view imports are left out. `Router.Resolve` matches paths exactly.
- LintGlob.ShouldLint takes regular-expression evaluation as a parameter. Brace alternatives such as `{vue,js}` are therefore copied into the expression literally, as the source does, and what they then match is up to that parameter.
- The console output and report file of `analyze-lint-errors.js` are left out. The model stops at the report object.
- LintAnalysis.Analyze states bounds for the totals. The exact number of errors and warnings is given by `Seqs.Count` in its body, and the exact per-rule contents by `LintAnalysis.TallyLookup`.
- LintAnalysis.Tally and LintAnalysis.FileTable state only a size bound. Their contents are stated by `LintAnalysis.TallyLookup` and `LintAnalysis.FileTableLookup`.
- ESLint itself, `path.relative` and `process.cwd()` are inputs.
- Strings.ParseIntOf models `parseInt` on unsigned decimal text, the digit-only pieces that conversation ids are written with. Leading whitespace, a sign, a `0x` prefix and radix detection are not modelled.
- Strings.NumberOf models `Number` on the same unsigned digit text. Surrounding whitespace, a sign, hexadecimal, binary and octal prefixes, a decimal point, an exponent and `Infinity` are not modelled; such a piece gives NaN in the model.

## Findings

| source | as written | input that shows it | evidently intended | confidence | as-written member | corrected member |
|---|---|---|---|---|---|---|
| src/services/errorLogger.js:141-148 | the filtered view compares an entry's level, an upper-case name, with `===` against the filter's numeric level value | an entry of level "ERROR" with the filter set to "error": the view is empty | show the entries whose level is the filter's level | not executed | ErrorLog.AsWrittenHidesErrors | ErrorLog.FilteredLogs |
| src/services/errorLogger.js:42 | the constructor assigns `this.filteredLogs = []`, but the class declares `filteredLogs` with a getter only, and class code is strict, so the assignment throws a `TypeError` | `new ErrorLogger()` at line 165: construction stops at line 42 and the module's default export is never created | start the logger with an empty view, which the getter already gives | not executed | ErrorLog.ConstructorThrows | ErrorLog.Initial |
| vite-eslint-plugin.js:120-124 | `**` is first rewritten to `.*`, and the following `*` pass rewrites that star to `[^/]*` | the glob `**` becomes `.[^/]*`; read as a regular expression, `src/**/*.js` then no longer matches `src/a/b/c.js` | a double star matches across slashes, `.*` | not executed | LintGlob.ShouldLintDoubleStar | LintGlob.ShouldLintIntended |
