# A model of NetSurf's content layer

These files model the data structures and protocols that NetSurf fetches,
keeps and finds content with, and prove what they promise of them.

* The find-in-page matcher (`Wildcard`, `WildcardProofs`).
* The URL database: the order of hosts and their names (`HostOrder`,
  `HostNames`), the host tree (`HostTree`), the balanced index over it as a
  value and in memory (`AaTree`, `SearchIndex`), what is filed in it by a
  history of hosts added (`HostFiling`), all together (`HostDatabase`), the
  paths of a host (`PathTree`, `HostPaths`), the walks over them
  (`PathWalks`), also over those of all hosts with a prefix
  (`HostIteration`), and writing them out (`PathWriting`).
* The low-level cache: its state and invariants (`LlcacheState`), the calls of
  clients (`LlcacheCalls`), notification (`LlcacheNotify`), fetching
  (`LlcacheFetch`), what clients answer (`LlcacheAnswers`), the cache itself
  (`Llcache`), a run that goes wrong
  (`LlcacheTornRun`), and the high-level cache as its client
  (`HlcacheRetrieval`).
* The metadata of cached objects (`HeaderLines`, `HeaderRoundTrip`,
  `Decimals`, `Metadata`).
* The backing store (`BlockMap`, `StoreState`, `BackingStore`).
* The fetch scheduler (`FetchScheduler`).
* The history of a window (`HistoryTree`, `HistoryVisits`, `HistoryLayout`).

What the source updates in place is a class, or an array, here as well, and
each of its methods is proved against a function or a relation on values.
Pointers of the low-level cache are keys of maps: what has been freed is a key
no longer there, and no key is used twice. Clients are adversaries: a method
that calls one lets it make any calls of its own, in any number, before it
gives any answer. Disc, clock, network and memory are parameters or free
choices. What clients and the rest of the world have chosen is recorded
(`LlcacheAnswers`), so that contracts can say what follows from it: that a
client was not told only if it let go, asked for a replay or another failed.

Some things that look true of the source are not, and what holds instead is
proved:

* A client that has been given data of an object whose fetch then times out,
  is attempted again and is redirected, goes on with another object's source
  from where it had got to (`LlcacheTornRun`). A handle records whether this
  has happened to it; that it has not is what payload integrity rests on, and
  it cannot happen if fetchers give every other answer before the first of
  the data and one attempt is made (`Rules` says which is assumed).
* A fetch attempted again appends to what the last attempt brought: the source
  is what one attempt brought exactly if the others brought nothing
  (`LlcacheFetch.LastAttemptIsWholeExactly`).
* A small element stored over another leaves the block of the other marked as
  used, though no entry holds it; nothing else does
  (`StoreState.StoringLeaksExactly`).
* The stack of the matcher holds for fifteen runs of asterisks, not sixteen.
* A name whose first label is taken for an IPv6 address is filed where it is
  not looked for (`[::12].example`), and an address is not filed at all once a
  name that ends in it has been added (`a.[::12]`, then `[::12]`). Exactly
  these hosts are lost, and names too long for the buffer
  (`HostDatabase.HostDb.FoundExactly`).
* A path may be found that was never added: exactly if it is not known and
  the descent that never goes back runs to its end
  (`HostPaths.MatchGoesWrongExactly`).
* The metadata parser is said to leave the object alone unless it succeeds,
  but headers read before a fault stay (`Metadata.LeftAloneExactly`).

Two more are remarks only, with no lemma to them. `llcache_clean` counts
sources as freed that it had released already, so that its count may be less
than what is left, or go round to more. A client that answers the certificates
with a request for replay is not shown them again, though the source's comment says
that it will be: it is left in the state it was already put in.

## Model
| member | source | states |
|---|---|---|
| WildcardProofs.FindMeetsItsSpecification | netsurf/content/textsearch.c:475-581 | a match reported is a match of the pattern less its leading asterisks; with at most fifteen runs of asterisks inside, it is the one that starts first and ends first, and none is reported only if there is none |
| WildcardProofs.ReliableExactlyUpToFifteen | netsurf/content/textsearch.c:482-482 | the search misses no match of any pattern with n interior runs of asterisks exactly if n is at most fifteen, one less than the stack has slots |
| WildcardProofs.DecoyIsMissed | netsurf/content/textsearch.c:512-530 | a pattern of sixteen runs and a text it matches, in which nothing is found |
| WildcardProofs.RunIsSound | netsurf/content/textsearch.c:500-581 | from every state of the loop whose contexts record true partial matches, whatever is reported in the end matches |
| WildcardProofs.RunIsComplete | netsurf/content/textsearch.c:500-581 | from every state of the loop that has overlooked nothing, the rest of it finds the first match or rightly none; the loop ends on every input |
| WildcardProofs.FindPattern | netsurf/content/textsearch.c:475-581 | the loop over pattern, text and the explicit stack computes the search of which the above is proved |
| Wildcard.CharMatchesExactly | netsurf/content/textsearch.c:546-553 | of pattern characters the number sign matches any, another matches itself and, unless case matters, the same letter in the other case |
| HostOrder.CompareZero | netsurf/content/urldb.c:1555-1585 | hosts compare equal exactly if their labels are the same folded to one case |
| HostOrder.CaseCompareEqual | netsurf/content/urldb.c:1565-1565 | labels compare equal exactly if they are as long and at each place have the same character, or an upper and a lower case letter as far from A as from a |
| HostOrder.CaseCompareLess | netsurf/content/urldb.c:1565-1565 | one label comes before another exactly if it ends where they part, or has the lesser character there, case aside |
| HostOrder.CompareEqual | netsurf/content/urldb.c:1555-1585 | hosts compare equal exactly if they have as many labels, each with the same letters but for case |
| HostOrder.CompareAntisymmetric | netsurf/content/urldb.c:1555-1585 | exchanging two hosts turns the sign of their comparison |
| HostOrder.CompareTransitive | netsurf/content/urldb.c:1555-1585 | the order of hosts, leaf label first, is transitive, strictly so if either step is strict; with the two above it is total |
| HostOrder.PrefixCompareZero | netsurf/content/urldb.c:751-809 | a host compares equal to a prefix exactly if it starts with it: all labels of the prefix but the last are its own, and the next begins with the last |
| HostOrder.PrefixCompareMonotone | netsurf/content/urldb.c:751-809 | comparison with a prefix is monotone in the order of hosts, so the pruned descent leaves nothing out |
| HostTree.MatchHost | netsurf/content/urldb.c:1555-1585 | the loop up both parent chains has the sign of the order on the two lists of labels |
| HostTree.MatchString | netsurf/content/urldb.c:1209-1264 | the loop over a dotted name has the sign of the order on its labels, so that the two comparators agree |
| HostTree.MatchPrefix | netsurf/content/urldb.c:751-809 | the third comparator has the sign of the comparison with a prefix |
| HostFiling.NameFiledExactly | netsurf/content/urldb.c:2198-2247 | for every history of hosts added, the entry that a name added is looked for under is in the index exactly if the name has at most 255 characters and its first label is not taken for an address |
| HostFiling.AddressIsFiled | netsurf/content/urldb.c:2174-2196 | where every host fits, every address added is in the index |
| HostFiling.UnfitAddressIsNotFiled | netsurf/content/urldb.c:2178-2183 | an address added after a name that ends in it, and not before, is not |
| HostFiling.KeyFiledExactly | netsurf/content/urldb.c:2166-2247 | where every host fits, what is looked for is in the index exactly if it has been added |
| HostFiling.BracketedFirst | netsurf/content/urldb.c:2222-2222 | `[::12].example` is filed in the tree of addresses and looked for among the names |
| HostFiling.BracketedLast | netsurf/content/urldb.c:2178-2183 | after `a.[::12]` the address `[::12]` is not filed; in the other order both are as they should be |
| HostFiling.UnbracketedFits | netsurf/content/urldb.c:652-741 | a host of at most 255 characters without an opening bracket fits, whatever came before |
| AaTree.RotationsKeepOrder | netsurf/content/urldb.c:1594-1633 | skew and split leave the hosts and their order as they are |
| AaTree.InsertKeepsBalance | netsurf/content/urldb.c:1643-1670 | a recursive insertion with a skew and a split at each level keeps all the level rules, and raises the level by one at most |
| AaTree.InsertRefinesSortedInsert | netsurf/content/urldb.c:1643-1698 | insertion adds the host at its place in the order and nothing else; a host that is there already changes nothing, not even the shape |
| AaTree.SortedInsertAddsOne | netsurf/content/urldb.c:1680-1698 | the sorted list then has the old hosts and the new one |
| AaTree.HeightIsLogarithmic | netsurf/content/urldb.c:1594-1633 | two to the height is at most the square of one more than the number of hosts |
| AaTree.HeightIsLongestWay | netsurf/content/urldb.c:1594-1633 | that height is how many nodes the longest way down has |
| AaTree.AnyRunIsSound | netsurf/content/urldb.c:1594-1698 | after any sequence of insertions the index is balanced, sorted, of logarithmic height, and has exactly the hosts inserted |
| AaTree.LookupFinds | netsurf/content/urldb.c:1274-1294 | descending by comparison finds a host exactly if it is anywhere in a sorted index |
| AaTree.MatchesAreContiguous | netsurf/content/urldb.c:820-869 | the hosts that start with a prefix are one interval of the order |
| AaTree.VisitsExactlyTheMatches | netsurf/content/urldb.c:820-869 | the pruned recursion visits exactly the hosts that start with the prefix, each once and in order |
| SearchIndex.SkewNode | netsurf/content/urldb.c:1594-1608 | relinking three pointers in place turns linked nodes that form a tree into nodes that form its skew |
| SearchIndex.SplitNode | netsurf/content/urldb.c:1617-1633 | the same of the split, which raises a level |
| SearchIndex.InsertInternal | netsurf/content/urldb.c:1643-1670 | recursive insertion in place makes the nodes form the tree the insertion on values gives |
| SearchIndex.InsertData | netsurf/content/urldb.c:1680-1698 | a new node for a host is inserted so |
| SearchIndex.Find | netsurf/content/urldb.c:1274-1294 | the recursion down the linked nodes is the lookup of all labels of a name, and of the first label alone for an address |
| AaTree.LookupFirstFinds | netsurf/content/urldb.c:1216-1219 | looking at first labels alone finds some host that begins with the address exactly if there is one |
| HostIteration.IteratePartialHost | netsurf/content/urldb.c:820-869 | the callback is called for the pages of the hosts that start with the prefix, host after host in the order of the index, until it refuses one |
| HostDatabase.HostDb.HostsAreUnique | netsurf/content/urldb.c:1010-1036 | no two nodes of the host tree have the same name but for case |
| HostDatabase.HostDb.AddHostNode | netsurf/content/urldb.c:1010-1036 | the new node is the first child of its parent; the rest of the tree is as it was |
| HostDatabase.HostDb.InsertHost | netsurf/content/urldb.c:1680-1698 | of the 28 search trees only the chosen one is relinked, and all go on reflecting what has been added |
| HostDatabase.HostDb.Descend | netsurf/content/urldb.c:2200-2240 | one label further down, in a child that was there or is made |
| HostDatabase.HostDb.FoundExactly | netsurf/content/urldb.c:2166-2247 | in every database every host added leads to its own node exactly if each fitted when it came: a name, if it has at most 255 characters and its first label is not taken for an address; an address, if each earlier name that ends in it came after the address itself |
| HostDatabase.HostDb.NameFoundExactly | netsurf/content/urldb.c:2198-2247 | in every database a name added leads to its own node exactly if it fits |
| HostDatabase.HostDb.AddressFoundExactly | netsurf/content/urldb.c:1216-1219 | an address that no name added begins with leads to its own node exactly if it is in the index |
| HostDatabase.HostDb.BracketedNameIsLost | netsurf/content/urldb.c:2222-2222 | `[::12].example` is not found, and is found for `[::12]`, which was never added |
| HostDatabase.HostDb.LateAddressIsLost | netsurf/content/urldb.c:2178-2183 | added after `a.[::12]`, `[::12]` is not found |
| HostDatabase.HostDb.AddAddress | netsurf/content/urldb.c:2174-2197 | an address gets one node below the root, and is entered in the tree of addresses if there was none |
| HostDatabase.HostDb.AddHost | netsurf/content/urldb.c:2166-2247 | whatever the host, the node returned has its labels; all hosts added are found afterwards exactly if they were before and this one fits; and it says, from what there was before, exactly when this one is found |
| HostDatabase.HostDb.FindHost | netsurf/content/urldb.c:1274-1294 | a name is found exactly if its labels are filed where it is looked for, an address if some host filed among the addresses begins with it; where all hosts added are found, so is nothing else, and what is found is the one node of that host |
| HostDatabase.HostDb.FoundInAnyCase | netsurf/content/urldb.c:1209-1294 | a host is found, and the same node, under every change of case of a name it is found under |
| HostNames.DottedQuad | netsurf/content/urldb.c:693-714 | a name is taken for four numbers or not whatever case its letters are in |
| PathTree.InsertKeepsShape | netsurf/content/urldb.c:1108-1168 | inserting a node before the first sibling that sorts after it keeps nodes distinct, parents right and siblings sorted by segment and unique by segment, scheme and port |
| PathTree.InsertFinds | netsurf/content/urldb.c:1108-1168 | after that exact lookup finds the new node under its own key, and under every other what it found before |
| PathTree.StrCmpLess | netsurf/content/urldb.c:1141-1144 | siblings sort by the first character in which their segments differ, one that ends before it first |
| HostPaths.Paths.SpliceIn | netsurf/content/urldb.c:1146-1165 | of all nodes only the neighbours and the parent are relinked, as the four cases say |
| HostPaths.Paths.FindPlace | netsurf/content/urldb.c:1141-1144 | the scan along the siblings stops at the place that keeps them sorted |
| HostPaths.Paths.AddPathNode | netsurf/content/urldb.c:1108-1168 | the linked nodes form the tree with the node inserted |
| HostPaths.Paths.EnsureChild | netsurf/content/urldb.c:2108-2154 | the child of that key is found or made, and nothing found before is lost |
| HostPaths.Paths.AddPath | netsurf/content/urldb.c:2087-2157 | the path leads to the node returned, the prefix-comparing lookup returns that very node, and all other paths lead where they led |
| HostPaths.Paths.MatchPath | netsurf/content/urldb.c:1306-1354 | the stackless lookup by `strncmp` returns the first match in preorder of prefixes, and the very node of a path that has been added |
| HostPaths.MatchFindsWhatIsThere | netsurf/content/urldb.c:1306-1354 | where siblings are sorted and unique, comparing prefixes finds the exact node of every path there is |
| HostPaths.MatchIsAnExtension | netsurf/content/urldb.c:1306-1354 | whatever is found has as many segments, each beginning with the one looked for |
| HostPaths.MatchGoesWrongExactly | netsurf/content/urldb.c:1323-1350 | a node is found exactly if going down, from each node to the `strcmp`-least of its children that begins with the segment and never back, reaches the last segment; it is the wrong node exactly if moreover the path is not known |
| HostPaths.MatchInventsPaths | netsurf/content/urldb.c:1306-1354 | a path that was never added is found when there is one that begins with it |
| HostPaths.OwnPathFinds | netsurf/content/urldb.c:1306-1354 | the path of every node leads to it |
| HostPaths.WrittenPathFinds | netsurf/content/urldb.c:2087-2157 | so does that path written out with slashes and split again |
| HostPaths.SplitJoin | netsurf/content/urldb.c:2108-2154 | splitting undoes joining segments without slashes |
| HostPaths.InsertKeepsFiled | netsurf/content/urldb.c:1108-1168 | no segment ever has a slash in it |
| PathWalks.CountUrls | netsurf/content/urldb.c:478-510 | the stackless walk ends and counts each leaf worth keeping below the top once: what is kept is what is persistent, or has been visited, if it was visited late enough |
| PathWalks.IterateEntries | netsurf/content/urldb.c:588-639 | the walk calls back for the leaves in preorder, each once, none outside the subtree, until one is refused |
| PathWalks.DestroyPathTree | netsurf/content/urldb.c:2758-2786 | every node is freed once, children before parents, the top last; no freed node is read, which each step of the walk asserts |
| PathWalks.ChildrenFirst | netsurf/content/urldb.c:2758-2786 | in the order of freeing, a node's parent comes after it |
| PathWalks.NodesInPostorder | netsurf/content/urldb.c:2758-2786 | no node is left out |
| PathWalks.PostorderNoneTwice | netsurf/content/urldb.c:2758-2786 | no node comes twice |
| PathWalks.HostCanBeWalked | netsurf/content/urldb.c:588-639 | the tree kept by adding paths is one the walks may be made on |
| PathWriting.WritePaths | netsurf/content/urldb.c:357-468 | at each leaf worth keeping, for its visits and its time, the buffer that grows and shrinks along the walk spells that leaf's path |
| PathWriting.SpeltInOrder | netsurf/content/urldb.c:357-468 | the i-th path written is that of the i-th leaf worth keeping |
| PathWriting.SpeltPathFindsItsLeaf | netsurf/content/urldb.c:2087-2157 | a path written leads back to its leaf under the leaf's own scheme and port |
| PathWriting.AnnouncedCountIsExact | netsurf/content/urldb.c:478-510 | as many paths are written as were counted before |
| Llcache.Llcache.NotifyUsers | netsurf/content/llcache.c:3306-3556 | whatever each client does when told, every client an object had has been told all the object had to tell, or has answered that it wants it again and is put back, unless it has since let go of its handle; or the walk was stopped by an answer that was an error. Nobody is passed over, no handle goes and no object is stopped but by a client; others are caught up as they were |
| Llcache.Llcache.NotifyOne | netsurf/content/llcache.c:3344-3552 | one user is brought through headers, data and done as far as its object is; only its client is called, again while it accepts; one that asks for a replay is still owed what it was told last |
| Llcache.Llcache.Emit | netsurf/content/llcache.c:3400-3450 | one call, and what its answer leads to: a client that holds on to its handle is gone on with, put back to exactly what it had, or stops the notification; one that has let go is dropped |
| Llcache.Llcache.SendEventToUsers | netsurf/content/llcache.c:384-414 | every client an object had is asked, unless it has since let go, up to the first that does not accept; no client's record of what it has been given changes, no handle goes and no object is stopped but by a client |
| Llcache.Llcache.CatchUpList | netsurf/content/llcache.c:3683-3686 | going along a list of objects while clients add to it and take from it passes by no object that was there and still has a user it had |
| Llcache.Llcache.CatchUpAllUsers | netsurf/content/llcache.c:3672-3692 | after a pass over both lists, as they are by then, in which all clients called accepted, every handle there was of any object, unless its client has since let go of it, is still on its object and has been told all that had to tell |
| Llcache.Llcache.Call | netsurf/content/llcache.c:3344-3365 | a client is called once, and only so is it told anything; it may retrieve, release, clone and abort as it likes: the cache stays sound and no client's record changes |
| Llcache.Llcache.Release | netsurf/content/llcache.c:4051-4072 | the handle and its user go, or are left to the notification under way; all other handles stay and no object changes state |
| Llcache.Llcache.Clone | netsurf/content/llcache.c:4075-4088 | the clone is on the same object in the same state with nothing read: it will be given the source from its first byte, unless the original is finished, in which case it is told nothing more |
| Llcache.Llcache.Abort | netsurf/content/llcache.c:4091-4150 | a client alone on an object stops its fetch, and the object is not fresh any more; with others it takes a finished copy of the source away, as its only user, and they go on |
| Llcache.Llcache.HandleRetrieve | netsurf/content/llcache.c:3983-4036 | the new handle has been told nothing, and is on an object for the URL that is fresh or being fetched, with its source within reach: on the newest there was if that is fresh, else on a new one that names it as its candidate, if its source can be read; nothing is retrieved only if a fetch could not be started |
| Llcache.Llcache.RetrieveFromCache | netsurf/content/llcache.c:1913-2075 | the newest object for a URL is handed out if it is fresh, all else staying as it was; if it is stale, a new one names it as its candidate and it is counted once more; only without one, or if its source could not be read, is the URL fetched without; a new object has all attempts before it and as many redirects behind it as were followed |
| Llcache.Llcache.RetrieveNewest | netsurf/content/llcache.c:1964-2075 | what becomes of the newest object: handed out, named as a candidate or, if its source could not be read, discarded |
| Llcache.Llcache.NewestMatching | netsurf/content/llcache.c:1935-1946 | of the cached objects for a URL the one requested last is found, the first in the list of several such, if there is any |
| Llcache.Llcache.ProcessData | netsurf/content/llcache.c:2502-2557 | data is appended, and the first of it gives the candidate up |
| Llcache.Llcache.NotModified | netsurf/content/llcache.c:2435-2492 | the answer 304 moves every user to the candidate, which is counted once less; clients had been given nothing, unless a redirect had moved them there too late |
| Llcache.Llcache.FollowRedirect | netsurf/content/llcache.c:2384-2412 | all users move to the object retrieved, the newest for its URL as when retrieving; none of them has been moved with data of another object exactly if none had been given any; they stay only if no fetch could be started; a new object counts one redirect more |
| Llcache.Llcache.OnRedirect | netsurf/content/llcache.c:2280-2412 | the clients are asked; past ten redirects, or where it may not be followed, they stay; otherwise, if all accept and a fetch can be started, all move to the object retrieved, and fare no worse than what they had been given says |
| Llcache.Llcache.OnTimeout | netsurf/content/llcache.c:2719-2749 | with attempts left, another is made with one fewer left, unless it cannot be started; without, the object is finished, its candidate given up, and all its clients are asked |
| Llcache.Llcache.OnAuth | netsurf/content/llcache.c:2567-2612 | one attempt with credentials that are there; then the object is finished and its clients are asked |
| Llcache.Llcache.OnTlsFailure | netsurf/content/llcache.c:2672-2710 | one attempt with an older version unless the host insists on TLS; else the object is finished and its clients are asked |
| Llcache.Llcache.FetchCallback | netsurf/content/llcache.c:3051-3256 | message by message, what becomes of the object, field by field: data is appended to its source, the end leaves the source and finishes it, an answer 304 hands its users over, a failure is tried again or finishes it; clients are asked of exactly the messages they are to be, a redirect that all accept takes them all to one object, an error stops news. No handle goes but by its client; all clients have been given more of the same, but that a redirect may have moved some that had been told of headers, or had been given data |
| LlcacheFetch.SourceIsWhatCame | netsurf/content/llcache.c:2502-2557 | after any run of messages the source is what there was and all the data of the run, end to end |
| LlcacheFetch.LastAttemptIsWholeExactly | netsurf/content/llcache.c:2719-2749 | it is what the last attempt brought exactly if no earlier one brought anything |
| Llcache.Llcache.Persist | netsurf/content/llcache.c:2931-3042 | only what is fresh for long enough, finished and no candidate is newly on disc, at most 128 objects; with fewer offered and none refused, all of that kind are |
| Llcache.Llcache.Clean | netsurf/content/llcache.c:3718-3880 | objects with users, named as candidates or being fetched are neither discarded nor deprived of their source; no other is left that is uncached or stale; if that was enough nothing else goes, and if the count is above the limit in the end no object is left that could go |
| LlcacheFetch.ClientsHoldThePrefix | netsurf/content/llcache.c:3306-3556 | in every state that can be reached, a client holds the beginning of its object's source, in order headers, data, done, and all of it once done; unless it was moved with data of another object |
| LlcacheFetch.AllHoldThePrefix | netsurf/content/llcache.c:2719-2749 | without that exception when no fetch is attempted again once it has brought data: fetchers answer before the first of the data, and one attempt is made |
| LlcacheFetch.NoDataNothingTold | netsurf/content/llcache.c:3425-3432 | as long as no attempt of a fetch has brought data, its clients have not been told of headers, if none came from elsewhere after it had been |
| LlcacheFetch.RedirectIsSafeExactly | netsurf/content/llcache.c:2400-2406 | whatever object clients are redirected to, what they hold is the beginning of its source: so exactly if none of them has been given data |
| LlcacheState.MoveIsSafeExactlyWhenNothingRead | netsurf/content/llcache.c:2400-2406 | the same of one client |
| LlcacheTornRun.BeforeTheRedirect | netsurf/content/llcache.c:2719-2749 | a client is given a byte, the fetch times out and is attempted again: sound, and open to a redirect |
| LlcacheTornRun.RedirectedTooLate | netsurf/content/llcache.c:2400-2406 | redirected then, it is told it is done having been given the first byte of one source and the second of another |
| LlcacheFetch.FetchingIsBounded | netsurf/content/llcache.c:1019-1046 | every object is passed to the fetcher at most twice more than there are attempts, and none is made by following more than eleven redirects |
| LlcacheFetch.UsedSourceIsInMemory | netsurf/content/llcache.c:1048-1057 | what has users or is counted as a candidate, and is on disc or has any source, has its source in memory; a candidate exists and is counted |
| LlcacheFetch.WriteOutIsSafeExactly | netsurf/content/llcache.c:2831-2894 | writing an object out keeps that exactly if it has a buffer or nobody uses it |
| LlcacheState.CandidateForgotten | netsurf/content/llcache.c:2454-2471 | the count of a candidate stays at least the number of objects that name it |
| LlcacheState.NewOwnerGetsAll | netsurf/content/hlcache.c:224-336 | a client that had accepted no data when it took over is given the source from its first byte, each byte once |
| HlcacheRetrieval.Retrieval.Callback | netsurf/content/hlcache.c:427-542 | the first data always settles the type; a new content or a download then asks for it again, and at the end, but headers are not repeated |
| HlcacheRetrieval.Retrieval.Migrate | netsurf/content/hlcache.c:347-417 | data is asked for again exactly if a new content or a download takes the handle over; only a failure is an error |
| HlcacheRetrieval.Run | netsurf/content/hlcache.c:224-542 | in every run of arrivals, notifications and replays the source is the data that came, and a content made for the handle is given all of it once and in order, and then the end; after five notifications at which nobody asks again nothing is left to tell |
| HeaderLines.SplitHeader | netsurf/content/llcache.c:496-572 | the loops over a line compute its name and value, whatever blanks there are, exactly if it has no colon or at most one blank before the name; else the source reads past its end |
| HeaderLines.ProcessHeader | netsurf/content/llcache.c:734-808 | a line that can be read adds a header, or none if it has no name, and starts anew if it begins a response |
| HeaderRoundTrip.FieldIsSplit | netsurf/content/llcache.c:496-572 | a field with blanks about its colon and at its end, as in section 3.2 of RFC 7230, splits into its name and value |
| HeaderRoundTrip.BlanksOfOneLine | netsurf/content/llcache.c:507-560 | all four blanks are dropped from about the name and the value of one line |
| HeaderRoundTrip.RestoredExactly | netsurf/content/llcache.c:1431-1446 | headers written as lines and read again are the same exactly if each has a trimmed name without colon and a trimmed value, and none but the first begins a response |
| HeaderRoundTrip.ReceivedAreRestorable | netsurf/content/llcache.c:734-808 | headers received are of that kind if no line began with a blank |
| HeaderRoundTrip.BlankBeforeTheName | netsurf/content/llcache.c:548-560 | a line that begins with a blank keeps the blanks at its end, which are lost when it is read again |
| Metadata.Serialise | netsurf/content/llcache.c:1321-1515 | the buffer is filled as the format says, or nothing is written if it would not hold it |
| Decimals.WrittenToTheBaseTen | netsurf/content/llcache.c:1390-1428 | numbers are written to the base ten |
| Metadata.OrderOfLines | netsurf/content/llcache.c:1373-1495 | with two headers, which lines there are and in which order |
| Metadata.FitsExactly | netsurf/content/llcache.c:1340-1370 | it holds it exactly if the six numbers take sixty characters at most |
| Metadata.ProcessMetadata | netsurf/content/llcache.c:1531-1774 | the pointer walk over the lines does what reading line by line does, faults included |
| Metadata.ComesBackExactly | netsurf/content/llcache.c:1531-1774 | length, times and the very list of headers come back exactly if the URL has seven characters and the headers are restorable |
| Metadata.FetchedComesBack | netsurf/content/llcache.c:1531-1774 | so they do for what a fetch has received in lines that begin with no blank |
| Metadata.HeadersStayAfterAFault | netsurf/content/llcache.c:1664-1676 | headers read before a fault stay on the object, though it is to be left alone |
| Metadata.LeftAloneExactly | netsurf/content/llcache.c:1664-1676 | a new object is left without headers exactly if reading gives up before them, or no line taken for a header has a name |
| Decimals.DecimalReadsBack | netsurf/content/llcache.c:1390-1428 | every number printed is read back |
| BlockMap.AllocBlock | netsurf/content/fs_backing_store.c:940-966 | with every block used it returns 0 and changes nothing; else the first free block, whose bit alone is set |
| BackingStore.Store.InvalidateElement | netsurf/content/fs_backing_store.c:425-458 | the element's block is not used any more, all other blocks are as they were, and its size is no longer counted |
| BackingStore.Store.InvalidateEntry | netsurf/content/fs_backing_store.c:467-506 | an entry in use is flagged, one that is not is removed, its size with it; its blocks are then free, and all others as they were |
| BackingStore.Store.SetStoreEntry | netsurf/content/fs_backing_store.c:982-1051 | after any store no two entries share a block of a kind, every held block is marked, and the total is the sum of all sizes; what grows past a block keeps its old number; blocks that no entry holds are left behind exactly if there were some or a small element is stored over another |
| BackingStore.Store.Fetch | netsurf/content/fs_backing_store.c:1862-1942 | an entry is held once more, flagged or not, and counts as used once more and now; one that cannot be read is not held |
| BackingStore.Store.Release | netsurf/content/fs_backing_store.c:1952-1988 | it is held once less, and the last release of a flagged entry removes it and frees its blocks |
| BackingStore.Store.Invalidate | netsurf/content/fs_backing_store.c:2000-2017 | an entry is removed at once, its blocks freed, or flagged until it is let go |
| BackingStore.Store.Evict | netsurf/content/fs_backing_store.c:585-651 | below the limit nothing; above it entries go, nothing in use, none used more often than one left unused, or as often and later, until more than the hysteresis has gone or only what is in use is left, and no further than that; their blocks are free |
| BackingStore.Store.EvictionList | netsurf/content/fs_backing_store.c:585-620 | the list has every entry once, in order of value |
| StoreState.ComparIsATotalPreorder | netsurf/content/fs_backing_store.c:512-552 | the comparison given to the sort is a total preorder |
| StoreState.EvictionIsAPrefix | netsurf/content/fs_backing_store.c:585-651 | what has gone was not in use and was worth no more than anything unused that is left |
| StoreState.LeastUsedGo | netsurf/content/fs_backing_store.c:535-547 | what has gone was used no more often, and if as often no later, than any unused entry left |
| StoreState.RemovalLeaksNone | netsurf/content/fs_backing_store.c:467-506 | removing entries leaves no block marked that no entry holds, if there was none |
| StoreState.StoringLeaksExactly | netsurf/content/fs_backing_store.c:1015-1045 | storing leaves one exactly if what is stored is no more than a block and its entry had a block for it |
| StoreState.ReferencedReached | netsurf/content/fs_backing_store.c:585-651 | once an entry in use is reached, all unused ones have gone |
| StoreState.EntryRemoved | netsurf/content/fs_backing_store.c:467-506 | removing an entry leaves accounts and blocks in order |
| StoreState.EntryStored | netsurf/content/fs_backing_store.c:982-1051 | so does storing one |
| StoreState.ReloadIsCleanExactly | netsurf/content/fs_backing_store.c:1132-1214 | an entry read back at start is sound exactly if nothing referred to it when it was written |
| FetchScheduler.Scheduler.DispatchJob | netsurf/content/fetch.c:148-164 | a job that starts moves to the other ring, one that does not goes to the end of its own |
| FetchScheduler.Scheduler.ChooseAndDispatch | netsurf/content/fetch.c:173-201 | the first job whose host is not saturated is dispatched, and if there is none nothing changes |
| FetchScheduler.Scheduler.DispatchJobs | netsurf/content/fetch.c:231-260 | it stops only with an empty queue, at the limit, with every queued host saturated, or when a start was refused; the fetches started go from the queue to the end of the ring; any two that stay, and were not refused, stay in their order; the limits hold throughout |
| FetchScheduler.RemovedIs | netsurf/utils/ring.h:53-64 | what is left of a ring is what was before the fetch taken out and what was behind it |
| FetchScheduler.RemovedKeepsOrder | netsurf/content/fetch.c:148-164 | of any two others the one that was before stays before |
| FetchScheduler.CountsPlaces | netsurf/utils/ring.h:98-112 | the count of a host is the number of places in the ring its fetches have |
| FetchScheduler.Scheduler.Start | netsurf/content/fetch.c:449-534 | a new fetch joins the end of the queue, which is then seen to in that way; it is in one of the rings, and so is every other |
| FetchScheduler.Scheduler.RemoveFromQueues | netsurf/content/fetch.c:767-790 | a fetch leaves the ring it says it is in and no other |
| HistoryTree.CloneEntry | netsurf/desktop/browser_history.c:54-161 | cloning a subtree while going along the original makes a tree of new entries, linked and shaped as the original, which stays as it was; the current entry becomes its counterpart |
| HistoryTree.Clone | netsurf/desktop/browser_history.c:317-347 | a window's history is cloned so, with its size |
| HistoryTree.EveryPlaceMirrors | netsurf/desktop/browser_history.c:54-161 | place by place the clone has the same page and leads back, aside, forward, to the preferred and to the last where the original does |
| HistoryVisits.Put | netsurf/desktop/browser_history.c:414-434 | a new entry is the last child of the current one, preferred from there on; all other links are as they were |
| HistoryVisits.Add | netsurf/desktop/browser_history.c:352-438 | a page shown again only takes its title; a new one is put so, becomes current, and everything is laid out anew |
| HistoryVisits.LinkedOnceGrafted | netsurf/desktop/browser_history.c:421-434 | relinking at most four pointers makes the links those of the tree with one entry more |
| HistoryLayout.LayoutSubtree | netsurf/desktop/browser_history.c:197-225 | the recursion puts every entry where the layout has it, and makes the page wide enough |
| HistoryLayout.Layout | netsurf/desktop/browser_history.c:236-252 | the page is as large as the layout takes, margins included |
| HistoryLayout.BoxIsWithin | netsurf/desktop/browser_history.c:197-225 | every box is within the part of the page given to its tree, and only the topmost is in its first column |
| HistoryLayout.BoxesAreApart | netsurf/desktop/browser_history.c:197-225 | no two boxes meet: there is a margin beside or below |
| HistoryLayout.BoxEndsWithin | netsurf/desktop/browser_history.c:197-225 | no box reaches beyond the width |
| HistoryLayout.BoxIsCentred | netsurf/desktop/browser_history.c:222-224 | there is as much room above an entry in its part of the page as below it, to within one |

## Left out
- AddHost: that the C library's parsers of addresses do not look at case is an assumption (`Caseless`) of what is said of finding; of an address with which a name added begins, whether it is found depends on the shape of the index, and only that such a name is itself lost is stated
- Clean: how much it counts away, pass by pass, and in which order the objects of one kind go
- CatchUpAllUsers: when it leaves another pass to be made
- Persist: which schemes are written out; how much is written in one go; an object in use without a buffer, which can only have an empty source, is not written out here, though the source would
- FetchCallback: the promptness of fetchers is a parameter; without it every message may come at any time
- NewestMatching: the list of cached objects is a sequence, its links are not modelled
- SplitHeader: for lines without a NUL inside
- ProcessMetadata: certificates end the reading here; where lines are missing, or a colon comes after several blanks, the outcome says that the source reads past the end
- Serialise: certificates; numbers are printed and read as decimals, as without `strftime` and `strptime`
- CloneEntry: bitmaps and scroll offsets; the counts of children and the positions of the clone's entries are zero, as in the source
- Add: thumbnails; how URLs are compared
- LayoutSubtree: the sizes of boxes and margins are parameters, and positions unbounded integers
- Evict: the sort is an insertion sort that stands for `qsort`, whose order among equals is not fixed
- Fetch: the counts of references stay below 255
- WritePaths: the buffer is a string that grows, and of what is written for a leaf only its path
- AddPath: the lookup made twice for each segment in the source is made once
- Run: one handle, which is not aborted, cloned or redirected; and no downloads, which stream
- Of hlcache.c: the list of contents, their sharing and what a content tells its own users
- Streaming of sources (`llcache_handle_force_stream`): bytes are then discarded as they are given, and an object moves from one list to the other, from which a walk along the first goes on
- How freshness follows from headers: expiry is given with each header, and the times of the objects are integers
- A notification started from within a client's callback for the same object
- Memory exhaustion, and the wrap-around of counters and lengths, but for the count that cleaning takes from
- The scheduling of catch-up and of the periodic work, which may be called at any time
- Cookies, authentication realms, HSTS headers, thumbnails and page titles of the URL database; loading and saving beyond the paths
- The host tree's sibling links: the children of a host are a sequence
- The prefix search over paths, which does not backtrack and so is not complete
- The block files and the file names of the backing store, where keys may collide
- The rings of the fetch scheduler as linked lists: they are sequences from the head on
