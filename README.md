# jackal: the record store, its merge rules and its importers

jackal keeps the results of a network penetration test in Elasticsearch. Range,
Host, Service, User and Credential records go into one index per record type.
Scanners and importers turn raw tool output into find-or-create lookups and field
updates on those records. This project models that core in Dafny and proves what
each part promises.

- **Store.** An index is a class `Store.Index` with two fields. `docs` maps each
  document id to its fields. `order` is the order a search returns the hits in.
  `get`, `save` and `update` are operations on that map. A document whose loaded
  fields are empty tests false in Python, so `if doc:` treats it as missing
  (`Documents.Loaded`).
- **Documents** (`jackal/documents.py`). Each record type declares which of its
  fields are multi-valued. A document object (`Documents.Doc`) is a class whose
  methods change its fields in place: `add_tag`, `save` and `update`. `to_dict`
  gives its flat dictionary view.
- **Merge and identity** (`jackal/core.py`):
  - `merge` is modelled twice: as a specification function `Core.MergeEffect` on the
    stored map, and as the method `Core.Merge` proved against it.
  - `object_to_id`, `id_to_object` and the filter grammar of `create_search` are
    modelled too. A search is a list of clauses, and the records it selects are
    stated by a predicate.
  - So are the two `get_pipe` dispatchers.
- **Importers.** For domaindump, secretsdump, CrackMapExec (`cme.py`) and netdiscover,
  each loop is an imperative method. Each is proved equal to a fold over the parsed
  input. Lemmas then state what the fold does: counts, which fields change, what is
  created, and what a second import does.
- **Stateful dedup machines:**
  - The sniffer's seen-address and seen-range sets are fields of the class
    `Sniffer.Sniffer`.
  - The named-pipe worker writes each line once per cycle.
- **Python operations the importers rely on** are modelled and proved where they are
  needed:
  - `str.split`, `join`, `strip` and `filter(None, …)` (`Text`);
  - the `ipaddress` calls of the sniffer (`Ipv4`);
  - the dotted-quad regular expression of the secretsdump importer (`DumpAddress`).

Records are maps from field name to `Value`. A value is either `One(atom)` or
`Many(list of atoms)`; an atom is a string, an integer, a boolean or a clock
reading. Clocks, ids generated by Elasticsearch, DNS answers, parsed JSON, SQLite
rows and subprocess output all enter as parameters.

## Model

| member | source | states |
|---|---|---|
| Lists.Dedup | jackal/core.py:154 | the repeat-free list stands for `list(set(value))`; it is no longer than its input |
| Lists.DedupSpec | jackal/core.py:152-154 | the deduplicated list has no repeats and holds exactly the elements of the input, in both directions |
| Lists.DedupOfDistinct | jackal/core.py:154 | a list without repeats is its own deduplication |
| Lists.DedupIdempotent | jackal/core.py:154 | deduplicating twice is deduplicating once |
| Lists.DedupAppendPresent | jackal/documents.py:38-39 | appending an element already present to a repeat-free list and deduplicating gives the list back |
| Lists.DedupAppendAllPresent | jackal/core.py:152-154 | appending only elements already present to a repeat-free list and deduplicating gives the list back |
| Lists.DedupAppendFacts | jackal/documents.py:38-39 | deduplicating `xs + [x]` keeps every element of `xs`, holds `x`, and adds nothing else |
| Text.Split | jackal/scripts/domaindump.py:128 | `str.split(sep)` for a non-empty separator always gives at least one piece |
| Text.JoinSplit | jackal/scripts/domaindump.py:128 | joining the pieces of a split with the same separator gives the original string back |
| Text.SplitNoOccurrence | jackal/scripts/secretsdump.py:33 | a string without the separator splits into itself alone |
| Text.SplitLead | jackal/scripts/domaindump.py:128 | a leading piece without the separator is split off whole and the separator after it is dropped |
| Text.SplitJoin | jackal/scripts/netdiscover.py:20 | splitting a join of pieces that lack the separator's first character gives the pieces back |
| Text.SplitLastPiece | jackal/scripts/domaindump.py:132 | the last piece of a split on a character is what follows its last occurrence |
| Text.SplitOnChar | jackal/scripts/secretsdump.py:33-34 | a split on one character has one more piece than there are occurrences, and no piece holds that character |
| Text.NonEmpty | jackal/scripts/netdiscover.py:20 | `filter(None, parts)` leaves no empty piece |
| Text.NonEmptyMembers | jackal/scripts/netdiscover.py:20 | `filter(None, parts)` keeps exactly the non-empty pieces |
| Text.NonEmptyKeepsAll | jackal/scripts/netdiscover.py:20 | a list without empty pieces is kept as it is |
| Text.JoinEnds | jackal/scripts/domaindump.py:128 | a join of non-empty pieces starts with the first piece's first character and ends with the last piece's last |
| Text.StripLeftSpec | jackal/scripts/secretsdump.py:28 | `lstrip()` removes exactly a run of leading whitespace, every character `str.isspace()` accepts |
| Text.StripRightSpec | jackal/scripts/secretsdump.py:28 | `rstrip()` removes exactly a run of trailing whitespace |
| Text.StripEnds | jackal/scripts/secretsdump.py:28 | what `strip()` leaves neither starts nor ends with whitespace |
| Text.StripSlice | jackal/scripts/secretsdump.py:28 | what `strip()` leaves is a slice of the original line |
| Text.StripUnchanged | jackal/scripts/netdiscover.py:20 | a string with no whitespace at its ends is its own strip |
| Text.ParseNat | jackal/scripts/domaindump.py:144 | `int(s)` on a plain digit string succeeds exactly when `s` is non-empty and all digits |
| Text.NatToString | jackal/scripts/sniffer.py:60 | `str(n)` is a non-empty digit string without a leading zero |
| Text.ParseNatToString | jackal/scripts/sniffer.py:54 | reading back the decimal text of a number gives the number |
| Text.NatToStringOfDigits | jackal/scripts/sniffer.py:54 | a canonical digit string is the text of its value |
| Values.KeyText | jackal/core.py:213-220 | an attribute read yields the string a field holds, and None when the field is missing or not a single string |
| Values.ListOr | jackal/core.py:152 | `old.get(key, [])` is the stored list, or empty when the key is unset |
| Values.Append | jackal/scripts/domaindump.py:81-82 | `append` adds the atom at the end of the list (empty when unset), and no other field changes |
| Values.Extend | jackal/scripts/domaindump.py:178-179 | `extend` adds the atoms at the end of the list (empty when unset), and no other field changes |
| Values.Assign | jackal/scripts/domaindump.py:175-180 | assigning an optional scalar sets the field, or leaves none for None; other fields are untouched |
| Ipv4.ParseOctet | jackal/scripts/sniffer.py:54 | an accepted octet text is the canonical decimal text of its value |
| Ipv4.OctetRoundTrip | jackal/scripts/sniffer.py:54 | the decimal text of every octet is accepted and read back as that octet |
| Ipv4.ParseAddress | jackal/scripts/sniffer.py:54 | an accepted address has exactly four dot-separated parts |
| Ipv4.ParseFormat | jackal/scripts/sniffer.py:54-60 | every address is read back from its text |
| Ipv4.FormatParse | jackal/scripts/sniffer.py:54-60 | every accepted text is the canonical text of its address |
| Ipv4.NetworkIdempotent | jackal/scripts/sniffer.py:58-60 | the network address of a network address is itself |
| Ipv4.MasksDistinct | jackal/scripts/sniffer.py:58-59 | different prefix lengths have different netmasks |
| Ipv4.MaskUnique | jackal/scripts/sniffer.py:58-59 | a netmask determines its prefix length |
| Ipv4.PrefixFrom | jackal/scripts/sniffer.py:58-59 | the search finds a prefix length whose netmask is the given one, or proves there is none |
| Ipv4.NetmaskPrefix | jackal/scripts/sniffer.py:58-59 | a netmask string denotes a prefix length of at most 32 |
| Ipv4.FormatNotDigits | jackal/scripts/sniffer.py:58-59 | a dotted netmask is never read as a decimal prefix length |
| Ipv4.PrefixOfMask | jackal/scripts/sniffer.py:58-59 | the prefix search on the netmask of `p` finds `p` |
| Ipv4.PrefixSearch | jackal/scripts/sniffer.py:58-59 | a prefix search from any start at or below `p` finds `p` |
| Ipv4.DottedNetmask | jackal/scripts/sniffer.py:58-59 | the dotted netmask of every prefix length denotes that prefix length |
| Ipv4.SingleAddressNetwork | jackal/core.py:253-254 | an address as the value of a term query on an `ip` field is read as the network of that address alone, which holds it and no other address |
| Ipv4.NetworkStringParses | jackal/scripts/sniffer.py:58-60 | the range string the sniffer forms, as a query value, is read back as that network and holds the address it was formed from |
| Store.Index.Get | jackal/core.py:145 | `get(id, ignore=404)` returns the stored fields exactly when the id is stored |
| Store.Index.Put | jackal/documents.py:24-27 | indexing replaces or adds the document under its id; a new id goes to the end of the search order |
| Store.Index.Patch | jackal/documents.py:29-31 | a partial update merges the given fields into a stored document; a missing document is reported and nothing changes |
| Store.AppendedTrans | jackal/documents.py:24-27 | two stretches of saving, one after the other, append to the search order as one: old ids stay in place and each id new to the store is appended once |
| Store.FirstMatch | jackal/core.py:338-345 | the hit is the first id in search order whose document holds each of the probe's values; with no hit, no stored document does |
| Documents.MultiFields | jackal/documents.py:100-108 | the multi-valued fields of each record type (Range 15-19, Service 54-64, Host 100-108) are among its declared fields |
| Documents.DropPrivate | jackal/documents.py:34 | the constructor keeps exactly the keywords not starting with `_`, with their values |
| Documents.InitialId | jackal/documents.py:88-92 | Range takes its range (or ''), Host its address; Service takes `_id` when given and otherwise keeps the hit's id (Range and Host at 33-36 and 122-125) |
| Documents.StoreKey | jackal/documents.py:24-27 | a missing or empty id is replaced by a generated one; otherwise the id is kept |
| Documents.WithTagFacts | jackal/documents.py:38-39 | the tags after `add_tag` have no repeats, hold the tag, keep every old tag, add nothing else, and a repeat-free list already holding the tag is unchanged |
| Documents.WithTagIdempotent | jackal/documents.py:127-128 | tagging twice with the same tag is tagging once |
| Documents.TagsOr | jackal/documents.py:39 | `self.tags or []` is empty for unset tags and the list itself for a list |
| Documents.TagsOfScalar | jackal/documents.py:39 | a scalar in tags can be iterated exactly when it is a string or false; a string gives its characters, a false value nothing; tagging adds exactly the tag to those |
| Documents.TagsUntouched | jackal/documents.py:38-39 | setting a field other than tags changes neither whether the tags can be iterated nor what they are |
| Documents.Meta | jackal/documents.py:41-47 | the metadata entries are private names and carry `_id` (when set) and `_type` |
| Documents.Flatten | jackal/documents.py:41-47 | the flat view has the keys of both parts, and the source keys win on collision |
| Documents.FlatViewRoundTrip | jackal/documents.py:80-86 | the flat view read back through a constructor gives the same fields, and a Service gets its id back |
| Documents.Doc.constructor | jackal/documents.py:33-36 | the fields are the keywords without private names, and the id is the one `InitialId` assigns |
| Documents.Doc.FromHit | jackal/core.py:145 | a document read from a hit has the hit's public fields and the id its type assigns from the hit |
| Documents.Doc.AddTag | jackal/documents.py:38-39 | `self.tags or []` is iterated: a list as it is, a string as its characters, unset or a false scalar as nothing; the tags become those plus the new one without repeats; a true scalar of another kind fails (TypeError) and changes nothing; no other field changes |
| Documents.Doc.Save | jackal/documents.py:24-27 | created_at is stamped on every call; Range, Host and User take their id from the key field; the document is indexed under that id (or a generated one), which becomes its id |
| Documents.Doc.Update | jackal/documents.py:29-31 | the object gets updated_at and the new fields; the store receives only those fields, and nothing when Elasticsearch would refuse |
| Documents.Doc.ToDict | jackal/documents.py:41-47 | without meta it returns the plain fields; with meta it returns the flattened view |
| Core.ObjectToId | jackal/core.py:334-347 | Range is identified by its range and Host by its address (213-220, 264-271); Service by the first stored service in search order with equal address, protocol, port and state, else None; the Service lookup fails exactly when the candidate lacks a single value for one of those four fields |
| Core.DirectIdentityIgnoresStore | jackal/core.py:213-220 | the identity of a Host or Range is its key field, whatever the store holds |
| Core.DedupMembers | jackal/core.py:152-154 | `list(set(value))` has no repeats and the same members |
| Core.CombineMembers | jackal/core.py:150-157 | a multi field becomes the repeat-free union of old and new values; a single field takes the candidate's value |
| Core.MergeUpdate | jackal/core.py:147-158 | the update has exactly the candidate's keys; multi fields get the union of stored and candidate values; single fields get the candidate's; an undeclared key fails, and so does a list field whose stored value is a single value (`extend` raises on it) |
| Core.Twin | jackal/core.py:143-146 | the stored twin is the candidate's id when that id is non-empty and its stored document is non-empty; an empty stored document is no twin |
| Core.MergeEffect | jackal/core.py:136-162 | for any store: merge saves a candidate without a twin (one new id, or replacing an empty stored document) or updates the twin; a Service lookup is refused exactly when an identity value is missing; a refused lookup, an update that raises and a refused update change nothing; no other document changes |
| Core.MergeKeepsWellFormed | jackal/core.py:147-162 | merging into a store whose documents hold lists in their list fields keeps it so |
| Core.MergeIgnoresOrder | jackal/core.py:143-146 | for Host and Range, what `merge` does does not depend on the search order |
| Core.BuildUpdate | jackal/core.py:147-157 | the loop over the candidate's keys builds exactly `MergeUpdate` |
| Core.Merge | jackal/core.py:136-162 | for any consistent store, the store after `merge` is the one `MergeEffect` describes; only a saved candidate gets an id and a created_at stamp; the search order gains the id exactly when a document is saved under an id not stored before |
| Core.MergeAtTwin | jackal/core.py:143-158 | a Host or Range whose key is stored is merged into that document |
| Core.MergeAtNoTwin | jackal/core.py:159-162 | a Host or Range whose key is not stored is saved under its key with a created_at stamp |
| Core.MergeWithoutTwinSaves | jackal/core.py:143-146 | with no stored twin, or only an empty document under its key, the candidate is saved as a new record under its own or a generated id |
| Core.UnknownFieldChangesNothing | jackal/core.py:150-151 | merging a candidate holding an undeclared field into its twin raises and leaves the store unchanged |
| Core.ScalarFieldChangesNothing | jackal/core.py:150-153 | merging into a twin that holds a single value in a list field the candidate carries raises (`extend` on a non-list) and leaves the store unchanged |
| Core.MergeIntoTwin | jackal/core.py:147-158 | the twin gets the union of each multi field and the candidate's single fields; fields the candidate lacks keep their values; no other document changes |
| Core.AbsorbList | jackal/core.py:152-154 | a repeat-free list that already holds every new value is unchanged by the union |
| Core.RemergeIsNoop | jackal/core.py:147-158 | a stored record that already holds everything the candidate brings is unchanged by the update |
| Core.RemergeAt | jackal/core.py:143-158 | merging into a twin that already absorbs the candidate changes nothing |
| Core.MergedAbsorbs | jackal/core.py:136-162 | after a merge the stored record absorbs the candidate |
| Core.MergeTwiceChangesNothing | jackal/core.py:136-162 | merging the same Host or Range twice changes nothing the second time |
| Core.ListAfterMerge | jackal/core.py:143-162 | after a Host or Range merge the record is stored under its key, and each list holds exactly the old members (when it was stored before) and the candidate's |
| Core.ListFieldsOrderIndependent | jackal/core.py:143-162 | merging two candidates with the same key in either order, whether or not the record was stored before, leaves each list with the same members: the old ones and both candidates' |
| Core.IdToObject | jackal/core.py:203-211 | Range and Host are fetched when their stored document is non-empty, or else created with only their key and saved over any empty one (257-262); Service gives None (330-332); an empty id is refused; the search order gains the id exactly when it is new |
| Core.CreatedRecordIsTwin | jackal/core.py:257-262 | a record created by `id_to_object` is the twin of any candidate with that key |
| Core.AllHoldSnoc | jackal/core.py:238-255 | adding one filter narrows the selection by exactly that filter |
| Core.CreateSearch | jackal/core.py:237-255 | the filters select exactly the records `Selects` describes (also 184-192, 301-319): tag tokens with `!` excluding, up, each port, each search term, and range (an address in the network the range names); an empty tag token fails; an empty query filters nothing |
| Core.HostServiceFilters | jackal/core.py:245-254 | the up, port, search and range filters add exactly `OthersWanted`; with none asked for, the search is unchanged |
| Core.PortFilters | jackal/core.py:247-249 | one port filter per comma-separated token, selecting exactly `PortsWanted`; none for an empty string |
| Core.SearchFilters | jackal/core.py:250-252 | one full-text filter per comma-separated token, selecting exactly `SearchWanted`; none for an empty string |
| Core.AtomWithinAddress | jackal/core.py:253-254 | under a plain address, a value lies in the network exactly when it is that address's text |
| Core.RangeOfOneAddress | jackal/core.py:253-254 | a range that is a plain address selects exactly the records whose address field holds that address |
| Core.ReadLine | jackal/core.py:127-133 | a stripped line is an object when it decodes to a JSON object, a non-object when it decodes to other JSON, and an id token exactly when it is not JSON |
| Core.PipeStep | jackal/core.py:127-133 | one line yields the constructed object or the resolved id; a line that is JSON but not an object, or a blank id, fails; only an empty record an id line names is replaced; the new records and search order are exactly `StepStore`: an id line of a Range or Host pipe creates its missing record (key and creation stamp) at the end of the order, and every other line changes nothing |
| Core.StepStoreKeys | jackal/core.py:127-133 | one line adds to the stored ids at most the id it names, and only on a Range or Host pipe |
| Core.BreakKeepsStore | jackal/core.py:127-133 | a line that ends the stream (JSON but not an object, or a blank id) changes neither the records nor the order |
| Core.ReadLinesPrefix | jackal/core.py:126-128 | reading a prefix of the input gives the prefix of what the whole input reads as |
| Core.GetPipe | jackal/core.py:122-133 | every line yields its document in order until the first line that is JSON but not an object or a blank id, which fails the stream; the new records and search order are exactly `PipeStore` of the lines read |
| Core.PipeNext | jackal/core.py:127-133 | one line either delivers its document, so that the store is `PipeStore` of one more line, or raises and leaves the documents and the store as they were |
| Core.PipeStoreNext | jackal/core.py:126-133 | the store after one more line is one more `StepStore` |
| Core.PipeStoreKeys | jackal/core.py:122-133 | after the stream an id is stored exactly when it was stored before or a non-blank id line of the stream named it (never on a Service pipe) |
| Core.PipeStoreKeeps | jackal/core.py:122-133 | after the stream every record stored before is still stored, unchanged, except that an empty one an id line names is replaced by the record `id_to_object` creates |
| Core.CreatedLoaded | jackal/core.py:257-262 | a record `id_to_object` creates is non-empty, so a later lookup of its id finds it |
| Core.PipeStoreRecords | jackal/core.py:122-133 | after the stream every record it created holds just its key field and its creation stamp, as `id_to_object` saves it |
| Core.PipeStoreOrder | jackal/core.py:122-133 | after the stream the search order is the old order followed by created ids only, and it still lists exactly the stored records |
| Core.MappedKind | jackal/core.py:367 | `object_mapping` maps exactly range_doc, host_doc and service_doc to their types |
| Core.Recognise | jackal/core.py:378-387 | a recognised line is a JSON object whose string `_type` names a mapped type; a line raises (TypeError) exactly when it is JSON but not an object, or its `_type` is a list |
| Core.Consumed | jackal/core.py:378-387 | the mapper reads the lines before the first one that raises, and all of them when none does |
| Core.MapperPipe | jackal/core.py:373-387 | one document per recognised line, of the type `_type` names and built by the constructor, up to the first line that raises; other lines are skipped; the stream fails exactly when some line raises |
| Core.MapperReadsFlatView | jackal/core.py:378-383 | a document written with `to_dict(include_meta=True)` comes back through the mapper with its type and fields |
| DomainDump.GetField | jackal/scripts/domaindump.py:13-17 | the first value of the attribute, or "" when the attribute is missing; an empty list fails |
| DomainDump.GetText | jackal/scripts/domaindump.py:13-17 | the field as a string, failing when the value is not a string |
| DomainDump.IntOf | jackal/scripts/domaindump.py:144 | `int(v)` reads a string as `IntText` does and a number or boolean as its value; anything else fails |
| DomainDump.IntTextDigits | jackal/scripts/domaindump.py:144 | a plain digit string reads as its decimal value |
| DomainDump.IntTextSigned | jackal/scripts/domaindump.py:144 | a leading `-` negates the digits' value and a leading `+` keeps it |
| DomainDump.IntTextStripped | jackal/scripts/domaindump.py:144 | whitespace around the literal does not change what `int()` reads |
| DomainDump.IntTextBlank | jackal/scripts/domaindump.py:144 | a blank string is refused |
| DomainDump.FromInt | jackal/scripts/domaindump.py:55 | the four octets of the address denote the integer |
| DomainDump.IpText | jackal/scripts/domaindump.py:54-57 | a valid IPv4 text is kept and anything else gives '' |
| DomainDump.ParseSingleComputer | jackal/scripts/domaindump.py:48-63 | the computer has the entry's fields; the ip is the entry's address when valid, and otherwise the DNS answer for its name |
| DomainDump.EntryAddressWins | jackal/scripts/domaindump.py:59-60 | a valid IPv4 entry address is used whatever DNS answers |
| DomainDump.DcGroups | jackal/scripts/domaindump.py:43-45 | a computer is a domain controller exactly when its group id is the number 516 or 512 |
| DomainDump.DomainOfDn | jackal/scripts/domaindump.py:127-128 | the domain of `…,DC=a,DC=b` is `a.b` |
| DomainDump.DomainWithoutDc | jackal/scripts/domaindump.py:128 | a name without `,DC=` has an empty domain |
| DomainDump.SidOfRid | jackal/scripts/domaindump.py:132 | the sid of `<domain sid>-<rid>` is the rid |
| DomainDump.CnAtoms | jackal/scripts/domaindump.py:137-140 | a group is listed exactly when some piece starts with `CN=`, and the listed name is the rest of that piece |
| DomainDump.CnGroups | jackal/scripts/domaindump.py:134-140 | membership parsing succeeds exactly when every membership is a string |
| DomainDump.PrimaryGroupName | jackal/scripts/domaindump.py:141 | the primary group's name from the table, or '' when unknown |
| DomainDump.FlagsOf | jackal/scripts/domaindump.py:144-149 | a flag is listed exactly when its bit is set in userAccountControl |
| DomainDump.UserOf | jackal/scripts/domaindump.py:122-150 | the user's domain, sid, groups and flags are the ones above; an empty userAccountControl fails |
| DomainDump.ParseGroups | jackal/scripts/domaindump.py:134-142 | the loop lists the CN groups in order, then the primary group |
| DomainDump.CnGroupsPrefix | jackal/scripts/domaindump.py:137-140 | a failure on a prefix of the memberships fails the whole list |
| DomainDump.ParseFlags | jackal/scripts/domaindump.py:144-149 | the loop lists the set flags in table order |
| DomainDump.ParseUser | jackal/scripts/domaindump.py:122-150 | `parse_user` computes `UserOf` |
| DomainDump.RowTable | jackal/scripts/domaindump.py:164-166 | a built table means every entry's row was readable |
| DomainDump.GroupTableOf | jackal/scripts/domaindump.py:164-166 | a built group table means every group row (objectSid relative id, cn) was readable |
| DomainDump.RowTableKeys | jackal/scripts/domaindump.py:164-166 | every table key is the key of some row (for the group table: the relative id of some group) |
| DomainDump.RowTableHas | jackal/scripts/domaindump.py:164-166 | every row's key is a key of the table (every group's relative id is in the group table) |
| DomainDump.RowTableLastWins | jackal/scripts/domaindump.py:164-166 | a row whose key no later row repeats is mapped to its own value: a group's id maps to the cn of the last group with that id |
| DomainDump.BuildGroupTable | jackal/scripts/domaindump.py:160-166 | the loop builds `GroupTableOf` |
| DomainDump.RowTableNext | jackal/scripts/domaindump.py:164-166 | one more row either enters the table or fails the build |
| DomainDump.RowTablePrefix | jackal/scripts/domaindump.py:164-166 | a failure on a prefix of the entries fails the whole build |
| DomainDump.ComputerFieldsDefined | jackal/scripts/domaindump.py:81-86 | folding a computer is defined exactly when the record holds a description list, its hostname is a list or unset, and its tags can be iterated |
| DomainDump.ComputerFieldsWrites | jackal/scripts/domaindump.py:81-82 | the description and DNS name are appended |
| DomainDump.ComputerFieldsFlags | jackal/scripts/domaindump.py:83-86 | the domain-controller flag and the tag are set; os is overwritten only when non-empty |
| DomainDump.ComputerFieldsKeeps | jackal/scripts/domaindump.py:79-87 | every other field, including an empty os, is kept |
| DomainDump.ComputerImportLocal | jackal/scripts/domaindump.py:79-88 | importing a computer changes no other stored Host |
| DomainDump.NewHostStopsImport | jackal/scripts/domaindump.py:79-81 | a computer whose Host is not stored is created and saved by `id_to_object`, then stops the import with an AttributeError, since the new record has no description list |
| DomainDump.FoldComputer | jackal/scripts/domaindump.py:81-86 | the in-place updates are `ComputerFields` and the id is unchanged |
| DomainDump.ImportComputer | jackal/scripts/domaindump.py:79-88 | one loop body computes `ComputerImport`; no Host is removed, and the search order only gains the new ids, at its end |
| DomainDump.SaveComputer | jackal/scripts/domaindump.py:81-87 | the folded Host is saved under its address, which the search order gains exactly when it is new |
| DomainDump.ParsedComputers | jackal/scripts/domaindump.py:76-78 | one parse result per entry, in order |
| DomainDump.ComputersImportSnoc | jackal/scripts/domaindump.py:76-88 | the run on one more entry is one more step |
| DomainDump.ComputersImportPrefix | jackal/scripts/domaindump.py:76-88 | a failure on a prefix of the entries fails the whole run with the same store |
| DomainDump.ComputersImportCount | jackal/scripts/domaindump.py:73-94 | a successful run parsed every entry and counts exactly the computers with an ip |
| DomainDump.ImportParsed | jackal/scripts/domaindump.py:78-88 | one entry is one `ComputerStep`: a computer with an ip is imported and counted, or fails the run; one without is skipped |
| DomainDump.ImportComputers | jackal/scripts/domaindump.py:66-94 | `parse_domain_computers` computes `ComputersImport`; the search order only gains the new ids, at its end |
| DomainDump.UserFieldsDefined | jackal/scripts/domaindump.py:175-181 | folding a user is defined exactly when the lists it extends are lists or unset and its tags can be iterated |
| DomainDump.UserFieldsWrites | jackal/scripts/domaindump.py:175-181 | name, description and sid are set; domain is appended; groups and flags are extended (no dedup); the tag is added |
| DomainDump.UserFieldsKeeps | jackal/scripts/domaindump.py:175-181 | every other field, including the username, is kept |
| DomainDump.NewUserKeptUnderName | jackal/scripts/domaindump.py:174-182 | a new user is saved under its username |
| DomainDump.FoldUser | jackal/scripts/domaindump.py:175-181 | the in-place updates are `UserFields` and the id is unchanged |
| DomainDump.ImportUser | jackal/scripts/domaindump.py:173-182 | one loop body computes `UserImport`; no User is removed, and the search order only gains the new ids, at its end |
| DomainDump.SaveUser | jackal/scripts/domaindump.py:181-182 | the folded User is saved under its username, which the search order gains exactly when it is new |
| DomainDump.ParsedUsers | jackal/scripts/domaindump.py:172-173 | one parse result per user entry, in order |
| DomainDump.UsersImportSnoc | jackal/scripts/domaindump.py:172-183 | the run on one more entry is one more step |
| DomainDump.UsersImportPrefix | jackal/scripts/domaindump.py:172-183 | a failure on a prefix of the entries fails the whole run with the same store |
| DomainDump.UsersImportCount | jackal/scripts/domaindump.py:169-188 | a successful run counts every entry, and every entry parsed |
| DomainDump.ImportEntry | jackal/scripts/domaindump.py:172-183 | a user entry is imported and counted |
| DomainDump.ImportUsers | jackal/scripts/domaindump.py:153-188 | `parse_domain_users` computes `UsersRun`: the group table first, then the users; the search order only gains the new ids, at its end |
| NamedPipes.CreateQuery | jackal/scripts/named_pipes.py:50-67 | the query has exactly the section's query options; up is `bool(value)`; the others are wrapped in one-element lists |
| NamedPipes.CreateQueryEmpty | jackal/scripts/named_pipes.py:54-67 | a section with no query option gives an empty query |
| NamedPipes.QueryArgs | jackal/scripts/named_pipes.py:54-67 | the corrected query: the same keys and up flag, with the other options passed as strings |
| NamedPipes.SplitArg | jackal/core.py:186-187 | a missing or false argument reads as ''; a string is used as is; anything else fails, since it has no `split` |
| NamedPipes.CreateQuerySearchFails | jackal/scripts/named_pipes.py:56-65 | as written, the pipe's search fails exactly when the section sets tags, or ports or search for a Host or Service pipe |
| NamedPipes.TaggedRangePipeFails | jackal/scripts/named_pipes.py:62-63 | a concrete Range section with tags whose search fails |
| NamedPipes.QueryArgsSearch | jackal/scripts/named_pipes.py:56-65 | with the corrected query, the search is exactly the one the section configures |
| NamedPipes.TypeMap | jackal/scripts/named_pipes.py:74-76 | exactly service, host, range and user name a search class, each its own |
| NamedPipes.PathJoin | jackal/scripts/named_pipes.py:92 | `os.path.join` keeps an absolute name and otherwise puts the name under the directory |
| NamedPipes.WorkerOfSection | jackal/scripts/named_pipes.py:88-94 | a section gives a worker exactly when it has a known type and a format; the worker carries the section's name, its path, the `create_query` query, the format and `bool(unique)` |
| NamedPipes.WorkerSearchFails | jackal/scripts/named_pipes.py:90-94 | as written, a Range, Host or Service worker's search fails to build exactly when its section sets tags, or ports or search outside a Range pipe |
| NamedPipes.WorkerOfIntendedSearch | jackal/scripts/named_pipes.py:90-94 | with the corrected query, a worker exists exactly when the as-written one does, and each Range, Host or Service worker searches exactly as its section configures |
| NamedPipes.CollectOk | jackal/scripts/named_pipes.py:87-96 | collecting results succeeds exactly when every result is a value, and then gives every value in order |
| NamedPipes.CollectFirstErr | jackal/scripts/named_pipes.py:87-96 | a failed collection carries the error of the first result that is not a value |
| NamedPipes.CollectErrPrefix | jackal/scripts/named_pipes.py:87-96 | once a prefix fails, the whole fails with the same error |
| NamedPipes.WorkersOk | jackal/scripts/named_pipes.py:87-96 | there are workers exactly when every section gives one, and then one per section, in order |
| NamedPipes.WorkersFirstErr | jackal/scripts/named_pipes.py:87-96 | without workers, the error is that of the first section that gives none |
| NamedPipes.CreatePipeWorkers | jackal/scripts/named_pipes.py:70-96 | the loop computes `Workers`: one worker per section in order, or the error of the first unreadable section |
| NamedPipes.Formatted | jackal/scripts/named_pipes.py:33-34 | one formatted line per record, in order |
| NamedPipes.Lines | jackal/scripts/named_pipes.py:38-40 | each write is a line followed by a newline |
| NamedPipes.Cycle | jackal/scripts/named_pipes.py:21-40 | one cycle starts with an empty seen-set and writes `CycleWrites` |
| NamedPipes.DedupSnoc | jackal/scripts/named_pipes.py:35-38 | a line is written exactly when it is new in this cycle |
| NamedPipes.PipeWorker | jackal/scripts/named_pipes.py:20-40 | every cycle writes its own `CycleWrites`; dedup is per cycle only |
| NamedPipes.UniqueCycleWritesOnce | jackal/scripts/named_pipes.py:33-38 | in unique mode no line is written twice, and a line is written exactly when some record formats to it |
| NamedPipes.PlainCycleWritesAll | jackal/scripts/named_pipes.py:39-40 | outside unique mode every record's line is written, in search order |
| NamedPipes.LinesInjective | jackal/scripts/named_pipes.py:38 | two written lines are equal exactly when their data are equal |
| NamedPipes.RepeatWritesNothing | jackal/scripts/named_pipes.py:35-38 | a record already written this cycle adds nothing in unique mode |
| Sniffer.Candidates | jackal/scripts/sniffer.py:39-43 | an ARP packet contributes one address and a TCP or UDP packet two |
| Sniffer.CandidatesMembers | jackal/scripts/sniffer.py:39-43 | the candidates are exactly the ARP source and the IP source and destination |
| Sniffer.Sniffer.constructor | jackal/scripts/sniffer.py:24-32 | both seen-sets start empty, except that a given own address is pre-seeded |
| Sniffer.Sniffer.NewIp | jackal/scripts/sniffer.py:65-74 | the address is added to the seen-set; the first time, the Host store becomes `HostMerged`, the address merged as a Host tagged 'sniffer', and the call fails exactly when that merge raises; the search order gains the address exactly when it was new and not stored; later calls change nothing |
| Sniffer.Sniffer.NewRange | jackal/scripts/sniffer.py:77-86 | the range is added to the seen-set; the first time, the Range store becomes `RangeMerged`, the range merged as a Range tagged 'sniffer', and the call fails exactly when that merge raises; the search order gains the range exactly when it was new and not stored; later calls change nothing |
| Sniffer.TaggedDoc | jackal/scripts/sniffer.py:71-72 | the new document has its kind, the address (or range) as id, and exactly that field and the 'sniffer' tag |
| Sniffer.MergeTagged | jackal/scripts/sniffer.py:71-73 | the index becomes the merge of the tagged candidate, the call fails exactly when that merge raises, and the search order gains the value exactly when nothing was stored under it |
| Sniffer.HostSavedNew | jackal/scripts/sniffer.py:71-73 | merging an address as a Host saves a new document exactly when none is stored under the address, and then under the address |
| Sniffer.RangeSavedNew | jackal/scripts/sniffer.py:83-85 | the same for a range merged as a Range |
| Sniffer.Sniffer.ParseIp | jackal/scripts/sniffer.py:46-62 | the sniffer's state takes one `ParseStep`: an unseen address that parses and is not multicast, unspecified, reserved, loopback or link-local, and is private or public addresses are included, is merged as a Host, and then its network, when new, as a Range; a merge that raises stops the step; otherwise nothing changes |
| Sniffer.Sniffer.Callback | jackal/scripts/sniffer.py:35-43 | the state is the `ParseRun` of the candidates in order, stopping at the first merge that raises; when none raises, the seen-sets grow by exactly the packet's kept addresses and their new ranges, and the stores are those `StoresRun` gives |
| Sniffer.NewRangesSnoc | jackal/scripts/sniffer.py:52-60 | one more address adds its range exactly when it is new and kept |
| Sniffer.SeenRunSets | jackal/scripts/sniffer.py:46-62 | after a run of addresses the seen-sets hold exactly the old ones, the kept addresses and the ranges of the kept addresses not seen before |
| Sniffer.RunNext | jackal/scripts/sniffer.py:35-43 | a run on one more address is the run so far followed by one `parse_ip` step, for the seen-sets and the stores |
| Sniffer.RecordedHost | jackal/scripts/sniffer.py:65-74 | a merged address is stored under itself, with that address and the 'sniffer' tag, whether its Host was stored before (under its address, tags unset or a list) or not |
| Sniffer.RecordedRange | jackal/scripts/sniffer.py:77-86 | a merged range is stored under itself, with that range and the 'sniffer' tag, whether it was stored before (under its range, tags unset or a list) or not |
| Sniffer.ParseStepOk | jackal/scripts/sniffer.py:46-62 | a step that does not raise is the step `SeenStep` and `StoresStep` describe |
| Sniffer.ParseRunOk | jackal/scripts/sniffer.py:35-43 | a run that does not raise is the run `SeenRun` and `StoresRun` describe |
| Sniffer.ParseRunSets | jackal/scripts/sniffer.py:35-62 | a run that does not raise adds exactly the kept addresses and the new ranges of the unseen ones, and leaves the stores `StoresRun` gives |
| Sniffer.ParseRunNext | jackal/scripts/sniffer.py:35-43 | one more address is one more step of a run that has not raised, and nothing after one that has |
| Sniffer.FailedRunStops | jackal/scripts/sniffer.py:35-43 | once a merge has raised, later addresses are never parsed |
| Sniffer.CallbackIsRun | jackal/scripts/sniffer.py:35-43 | the callback's three guarded calls are the run over the packet's candidates |
| Sniffer.ArpAndIpIsRun | jackal/scripts/sniffer.py:39-43 | for a packet with both layers, the ARP source, IP source and IP destination steps are the run over the three candidates |
| Sniffer.IpOnlyIsRun | jackal/scripts/sniffer.py:41-43 | for a packet with only the IP layer, the source and destination steps are the run over the two candidates |
| Sniffer.HostMergeSucceeds | jackal/scripts/sniffer.py:65-74 | merging an address as a Host does not raise when the Host stored under it is missing or holds its tags unset or as a list, whatever else is stored |
| Sniffer.RangeMergeSucceeds | jackal/scripts/sniffer.py:77-86 | the same for a range merged as a Range |
| Sniffer.ParseStepSucceeds | jackal/scripts/sniffer.py:46-62 | a step raises only because of the documents stored under the address and under its range |
| Sniffer.ScalarTagsStop | jackal/scripts/sniffer.py:46-74 | a new address whose stored Host holds its tags as one value stops the sniffer: the address is marked seen and nothing else changes |
| Sniffer.RangeSearchFindsHost | jackal/scripts/sniffer.py:58-60 | the range recorded for an address, used as the range of a host search, selects the Host recorded for it (jackal/core.py:253-254) |
| Sniffer.DefaultNetmask | jackal/scripts/sniffer.py:24 | the default netmask 255.255.255.0 denotes prefix length 24 |
| DumpAddress.DigitRun | jackal/scripts/secretsdump.py:15 | the greedy run of ASCII digits starting at a position |
| DumpAddress.QuadEnd | jackal/scripts/secretsdump.py:15 | a match of the pattern at a position ends after it |
| DumpAddress.Matches | jackal/scripts/secretsdump.py:16 | where a match starting at each position ends |
| DumpAddress.FirstSome | jackal/scripts/secretsdump.py:16 | `findall(...)[0]` is at the first position where a match starts |
| DumpAddress.FirstSomeIsFirst | jackal/scripts/secretsdump.py:16-19 | no match starts before the one found, nor anywhere when none is found |
| DumpAddress.FindFrom | jackal/scripts/secretsdump.py:16-19 | the first match is found where it starts |
| DumpAddress.QuadShape | jackal/scripts/secretsdump.py:15 | a match is four groups of one to three digits joined by dots |
| DumpAddress.HostIpOfAddress | jackal/scripts/secretsdump.py:15-19 | a filename holding a dotted address, with no digit around it, yields that address |
| DumpAddress.HostIpShape | jackal/scripts/secretsdump.py:15-19 | the address found is four groups of one to three digits joined by dots |
| DumpAddress.HostIpNone | jackal/scripts/secretsdump.py:16-23 | when no address is found, no position of the name starts a match |
| SecretsDump.ParseLine | jackal/scripts/secretsdump.py:33-35 | a line is a hash line exactly when it has seven colon-separated fields |
| SecretsDump.ParseDumpLine | jackal/scripts/secretsdump.py:33-43 | a dump line gives username = field 0 and secret = field 2 ':' field 3 |
| SecretsDump.Stripped | jackal/scripts/secretsdump.py:28 | every line is stripped, in order |
| SecretsDump.Tagged | jackal/scripts/secretsdump.py:38 | tagging is defined exactly when the tags can be iterated: unset, a list, a string or a false scalar |
| SecretsDump.TaggedUsername | jackal/scripts/secretsdump.py:37-39 | tagging a User adds the tag and keeps the username it is saved under |
| SecretsDump.CredentialHit | jackal/scripts/secretsdump.py:44 | a found credential has the line's username, secret and host address |
| SecretsDump.TagUser | jackal/scripts/secretsdump.py:37-39 | fetching or creating, tagging and saving the User computes `UserTag`; the User search order only gains the new ids, at its end |
| SecretsDump.SaveTaggedUser | jackal/scripts/secretsdump.py:38-39 | the tagged User is saved, stamped, under its username, which the search order gains exactly when it is new |
| SecretsDump.TagCredential | jackal/scripts/secretsdump.py:44-49 | finding or creating, tagging and saving the Credential computes `CredentialTag` |
| SecretsDump.ImportLine | jackal/scripts/secretsdump.py:32-53 | one stripped line computes `Step`: a hash line is imported and counted; a malformed one is skipped; the User search order only gains the new ids |
| SecretsDump.RunPrefix | jackal/scripts/secretsdump.py:32-53 | a failure on a prefix of the lines fails the whole run with the same stores |
| SecretsDump.ParseFile | jackal/scripts/secretsdump.py:7-58 | `parse_file` computes `FileImport`; the User search order only gains the new ids, at its end |
| SecretsDump.RunCount | jackal/scripts/secretsdump.py:30-50 | a successful run counts exactly the seven-field lines |
| SecretsDump.FileImportCount | jackal/scripts/secretsdump.py:11-23 | nothing is imported or changed exactly when the path is not a file or its name holds no address; otherwise the count is the hash lines |
| SecretsDump.UserTagStores | jackal/scripts/secretsdump.py:37-39 | the User ends up stored with the import tag; a new user is stored under its username |
| SecretsDump.NewCredentialPublic | jackal/scripts/secretsdump.py:46 | a new credential keeps all its keywords and has no id yet |
| SecretsDump.FoundAgrees | jackal/scripts/secretsdump.py:44-46 | the credential worked on has the line's username, secret and host address |
| SecretsDump.FoundId | jackal/scripts/secretsdump.py:44 | a found credential keeps the id it was found under |
| SecretsDump.CredentialTagShape | jackal/scripts/secretsdump.py:44-49 | finding or creating, then tagging and saving, in terms of the credential worked on |
| SecretsDump.StampedFields | jackal/scripts/secretsdump.py:48-49 | tagging and stamping adds the tag and changes no field other than tags and created_at |
| SecretsDump.CredentialTagStores | jackal/scripts/secretsdump.py:44-49 | the Credential ends up stored with the line's username, secret and host address and the import tag |
| SecretsDump.NewCredentialStored | jackal/scripts/secretsdump.py:45-46 | with no stored match, a new NTLM credential on port 445 is stored under a generated id |
| SecretsDump.NewCredentialStamped | jackal/scripts/secretsdump.py:46-49 | the new credential keeps its type 'ntlm' and port 445 through tagging and saving |
| SecretsDump.CredentialTagKeeps | jackal/scripts/secretsdump.py:44-49 | the Credential store stays listed and free of `_id` fields and empty ids |
| SecretsDump.FoundCredentialAddsNothing | jackal/scripts/secretsdump.py:44-49 | a line whose credential is stored adds no credential |
| SecretsDump.ReimportAddsNoCredential | jackal/scripts/secretsdump.py:44-49 | importing the same hash line twice creates no second credential |
| Cme.CredentialProbe | jackal/scripts/cme.py:15 | the lookup filters on username, secret and domain, and on host_ip exactly when an address is given |
| Cme.CredentialHit | jackal/scripts/cme.py:15 | a found credential matches the four looked-up values |
| Cme.CredentialFieldsWrites | jackal/scripts/cme.py:23-28 | type and port are always written, access_level only when truthy, and the tag is added; every other field is kept |
| Cme.AddCredential | jackal/scripts/cme.py:13-29 | `add_credential` computes `CredentialUpsert` |
| Cme.SaveCredential | jackal/scripts/cme.py:23-29 | the credential is saved, stamped, under its id or a generated one |
| Cme.CredentialUpsertStores | jackal/scripts/cme.py:13-29 | afterwards the store holds a matching credential with the given type, port, tag and truthy access level |
| Cme.FoundAgrees | jackal/scripts/cme.py:14-21 | the credential worked on matches the arguments on every filtered field |
| Cme.NewCredentialExact | jackal/scripts/cme.py:16-29 | a new credential holds exactly the looked-up values, type, port, the truthy access level, the tag and the stamp |
| Cme.HostFieldsSets | jackal/scripts/cme.py:43-50 | hostname is appended when non-empty; os and domain_controller are set when truthy; the tag is added |
| Cme.HostFieldsSkips | jackal/scripts/cme.py:43-48 | a field the row leaves empty keeps its stored value |
| Cme.HostFieldsKeeps | jackal/scripts/cme.py:42-51 | every other Host field is kept |
| Cme.HostFieldsTagged | jackal/scripts/cme.py:50 | the tag is added after the row's writes |
| Cme.ImportComputer | jackal/scripts/cme.py:41-52 | one computer row computes `ComputerImport`; no Host is removed, and the search order only gains the new ids, at its end |
| Cme.SaveHost | jackal/scripts/cme.py:42-51 | the folded Host is saved under its address, which the search order gains exactly when it is new |
| Cme.FoldHostRow | jackal/scripts/cme.py:43-50 | the in-place updates are `HostFields` and the id is unchanged |
| Cme.ImportComputers | jackal/scripts/cme.py:40-52 | the computer loop computes `ComputersRun` and builds `host_map`; the search order only gains the new ids, at its end |
| Cme.ComputersRunCount | jackal/scripts/cme.py:40-52 | a successful computer loop counts every row |
| Cme.HostMapRows | jackal/scripts/cme.py:49 | `host_map` maps every row's id, each to the address of a row with that id |
| Cme.HostMapOfUniqueIds | jackal/scripts/cme.py:49 | with unique ids each row's id maps to its own address |
| Cme.UserFieldsWrites | jackal/scripts/cme.py:61-63 | domain is appended only when non-empty and the tag is added; every other field is kept |
| Cme.ImportUser | jackal/scripts/cme.py:60-65 | the User part of a user row computes `UserImport`; no User is removed, and the search order only gains the new ids, at its end |
| Cme.SaveUser | jackal/scripts/cme.py:60-64 | the folded User is saved under its username, which the search order gains exactly when it is new |
| Cme.AccountCredentialAddress | jackal/scripts/cme.py:67-72 | the user's credential has the address of its source computer when known, and none otherwise; port is 445 |
| Cme.AdminComputers | jackal/scripts/cme.py:74 | the computers a user administers, in table order |
| Cme.AdminComputersListed | jackal/scripts/cme.py:74 | a computer is listed exactly when an admin relation links it to the user |
| Cme.AdminStepWrites | jackal/scripts/cme.py:74-77 | a successful admin step stores an Administrator credential for the computer's address |
| Cme.AdminRunMissing | jackal/scripts/cme.py:76 | an unknown computer id raises a KeyError that ends the import |
| Cme.AdminRunNext | jackal/scripts/cme.py:74-77 | a known computer gets its Administrator credential and is counted |
| Cme.AdminRunCount | jackal/scripts/cme.py:74-77 | a successful admin loop counts every relation, and every computer was known |
| Cme.ImportAdmins | jackal/scripts/cme.py:74-77 | the admin loop computes `AdminRun` |
| Cme.AccountImportParts | jackal/scripts/cme.py:58-77 | a user row's outcome follows from its User, credential and admin parts |
| Cme.AccountImportCount | jackal/scripts/cme.py:58-77 | a successful user row counts its admin relations, all of known computers |
| Cme.ImportAccount | jackal/scripts/cme.py:58-77 | one user row computes `AccountImport` |
| Cme.ImportAccounts | jackal/scripts/cme.py:55-77 | the user loop computes `AccountsRun` |
| Cme.AccountsRunCount | jackal/scripts/cme.py:55-77 | a successful user loop counts every user and every admin relation |
| Cme.AccountsRunHosts | jackal/scripts/cme.py:55-77 | after a successful user loop every admin relation of its users names a computer in `host_map` |
| Cme.SmbImportStats | jackal/scripts/cme.py:80-85 | the logged counts are the computer rows, the user rows and their admin relations; every admin computer is in the database |
| Cme.SmbImportParts | jackal/scripts/cme.py:32-86 | the outcome of `import_smb` follows from its two loops |
| Cme.ImportSmb | jackal/scripts/cme.py:32-86 | `import_smb` computes `SmbImport` |
| Cme.OtherDatabasesUntouched | jackal/scripts/cme.py:89-93 | ssh, winrm, http and mssql databases import nothing |
| Cme.OtherDatabaseNames | jackal/scripts/cme.py:90-92 | none of the other database names ends in `smb.db` |
| Cme.SmbDatabaseImported | jackal/scripts/cme.py:89-93 | a successful `smb.db` import reports its counts |
| Cme.ImportDatabase | jackal/scripts/cme.py:89-93 | `import_database` computes `DatabaseImport` |
| NetDiscover.Columns | jackal/scripts/netdiscover.py:20 | the columns of a line are non-empty |
| NetDiscover.Reported | jackal/scripts/netdiscover.py:19-22 | at most one reported value per line |
| NetDiscover.ReportedMembers | jackal/scripts/netdiscover.py:19-22 | a value is reported exactly when some line reports it |
| NetDiscover.LinesIps | jackal/scripts/netdiscover.py:19-22 | at most one address per line, and none is empty |
| NetDiscover.AddressesNonEmpty | jackal/scripts/netdiscover.py:20-22 | no reported address is empty |
| NetDiscover.SplitColumns | jackal/scripts/netdiscover.py:20 | columns joined by two spaces split back into those columns |
| NetDiscover.LineOfColumns | jackal/scripts/netdiscover.py:20-22 | a line of five columns reports its first column, and any other count reports nothing |
| NetDiscover.LinesIpsMembers | jackal/scripts/netdiscover.py:19-22 | an address is collected exactly when some line reports it |
| NetDiscover.TagHostFails | jackal/scripts/netdiscover.py:32-38 | handling an address fails exactly when it is empty or its stored Host's tags are a true scalar other than a string |
| NetDiscover.TagEmptyHost | jackal/scripts/netdiscover.py:32-38 | an empty stored Host is taken for missing and replaced by a new Host holding the address and the tag |
| NetDiscover.TagStored | jackal/scripts/netdiscover.py:32-35 | a stored Host gets the tag through a tags-only update |
| NetDiscover.TagHostEffect | jackal/scripts/netdiscover.py:31-38 | the address ends up stored and tagged, every Host stays filed under its address, and no other Host changes |
| NetDiscover.TagHostKeeps | jackal/scripts/netdiscover.py:33-35 | a stored Host keeps its old tags and every field other than tags |
| NetDiscover.TagAgain | jackal/scripts/netdiscover.py:33-35 | a Host already tagged is left as it is |
| NetDiscover.TagHostIdempotent | jackal/scripts/netdiscover.py:31-38 | handling the same address twice is handling it once |
| NetDiscover.HostsRunTagged | jackal/scripts/netdiscover.py:31-38 | after the loop every address found is a tagged Host, and no Host was removed |
| NetDiscover.SaveHost | jackal/scripts/netdiscover.py:32-38 | one address of the loop computes `TagHost`, where a stored Host counts only when it is non-empty; no Host is removed; the search order gains the address exactly when a new Host is saved under it |
| NetDiscover.SaveNext | jackal/scripts/netdiscover.py:31-38 | one more turn of the loop is one more step of `HostsRun`; no Host is removed and the search order only gains new ids |
| NetDiscover.SaveHosts | jackal/scripts/netdiscover.py:31-38 | the loop over the addresses computes `HostsRun`; the search order only gains the new ids, at its end |
| NetDiscover.NetDiscover.constructor | jackal/scripts/netdiscover.py:9-11 | a new scanner has its range and no addresses |
| NetDiscover.NetDiscover.Execute | jackal/scripts/netdiscover.py:14-24 | the output's addresses are appended to those of earlier runs, and the total is returned |
| NetDiscover.NetDiscover.Collect | jackal/scripts/netdiscover.py:19-22 | the loop appends the address of every five-column line |
| NetDiscover.NetDiscover.Save | jackal/scripts/netdiscover.py:27-38 | the Range gets the tag through a tags-only update, then every address is tagged or created as a Host, new ones appended to the Host search order; a Range whose tags are a true scalar other than a string fails before anything changes |

## Left out

- IPv6 addresses: the sniffer and domaindump model IPv4 only. An IPv6 text counts as
  an unparseable address.
- DNS resolution in domaindump is a lookup table passed as a parameter. The DNS and
  LDAP scripts are not part of this model.
- JSON decoding, reading files, SQLite queries, printing, progress output and the
  `Logger` are not modelled. Their results enter as parameters (parsed entries, rows,
  lines). The computed counts are what would be logged.
- Command-line parsing (`argparse`, `core_parser`, `get_hosts`/`get_ranges`/`get_services`),
  every `main` function and `import_domaindump`'s file-name dispatch are plumbing.
- The netdiscover subprocess: its output is a parameter of `Execute`.
- Packet capture (`sniff`, `start`): a packet is reduced to its kind and its addresses.
  An exception out of `callback` ends `sniff`; the model stops the callback with
  `ok` false, and what follows the end of the capture is not modelled.
- Creating, opening, blocking on and removing the FIFO in `pipe_worker`: a cycle is
  modelled from the records its search returned. `PartialFormatter` is a function
  parameter.
- The Elasticsearch connection, the query DSL, and the ConnectionError/NotFoundError
  handling of `search` and `count`. The store is a map with a search order, and a
  search is a predicate over records.
- Clock readings and ids generated by Elasticsearch are parameters.
- A refused `update` (no fields, no id, or no document) is modelled as "changes
  nothing". The exception the client would raise is not modelled.
- NULL columns of the CME database are read as empty strings or 0.
- Core.MergeUpdate: `list(set(value))` has no defined order. The model keeps first
  occurrences, and its contracts promise only the members and the absence of repeats.
- Documents.Doc.AddTag and Documents.WithTag: `list(set(self.tags or []) | set([tag]))`
  has no defined order either. The model keeps the first occurrence of each tag, the
  old tags before the new one; its contracts promise only the members and the absence
  of repeats.
- Core.MergeUpdate requires the candidate's multi-valued fields to hold lists. The
  code would `extend` a string with its characters. The code has no coercion of a lone
  scalar, so the model follows the code.
- Importers: a stored scalar where `append` or `extend` needs a list, a missing
  description list, or tags that `add_tag` cannot iterate end the import with an error
  outcome (the AttributeError or TypeError) instead of an uncaught exception.
- Core.ListFieldsOrderIndependent: stated for a non-empty key. With an empty key
  neither candidate has a twin, each merge saves a record of its own, and there is no
  shared list to compare.
- Documents.Doc.Save: the `full_clean` validation that `save()` runs is not modelled.
  It would raise ValidationException for a Host without an address or a Range without
  a range, and it converts Ip, Integer and Date fields. That code is in
  elasticsearch_dsl, which is not part of this model.
- Core.MergeWithoutTwinSaves: a candidate that `full_clean` would refuse is saved like
  any other, for the same reason.
- Text.ParseNat: digits are the ASCII digits only. Python also reads other Unicode
  decimal digits.
- DomainDump.IntOf: `int()` on a string is modelled with surrounding whitespace, a
  sign and single underscores between digits, but with ASCII digits only.
- DumpAddress.DigitRun: `\d` is read as the ASCII digits. Python's `re` also matches
  other Unicode decimal digits.
- NamedPipes.CreatePipeWorkers: with no sections the code prints an error and returns
  None. The model returns an empty list of workers, which `main` treats the same way.
- NamedPipes.WorkerSearchFails and NamedPipes.WorkerOfIntendedSearch: the search of a
  User pipe (`UserSearch`) is not modelled.
- The User and Credential document classes and `CredentialSearch.find_object` are not
  part of this model. A User is keyed by its username like a Host by its address. A
  Credential lookup is the first stored match in search order.
- Store.FirstMatch: a stored list agrees with a probe value only when it is that one
  value, where a `term` filter matches a list holding it. The fields it is used on
  (Service address, protocol, port and state; credential username, secret and host
  address) are single-valued in the mappings.
- Core.AddressWithin: a range that is neither an address nor `address/prefix` makes
  Elasticsearch refuse the search; here its filter selects nothing. The prefix length
  is read as decimal digits only, where the Java parser also takes a sign. IPv6
  networks are not modelled.
- When a candidate holds both an undeclared field and a list field its twin stores as
  one value, the code raises KeyError or AttributeError depending on the key order;
  the model reports both as the one outcome `UpdateRaised`.
- Document options `skip_empty` and the index templates are not modelled.
- `remove_tag` is called by the tags script but defined by no document, so it is not
  modelled.
- The scripts eternalblue, relaying, dns, dns_discover, nmap, nessus, tomcat_brute,
  head_scanner, ldap, filter, modify, tags and the listing front-ends are outside the
  modelled core, as is jackal/config.py.
- The `ipaddress` behaviour is that of Python 3.9.5 up to, but not including, 3.12.4:
  an octet with a leading zero is rejected (from 3.9.5 on), and the private-network
  table is the one used before 3.12.4.

## Findings

| source | as written | input that shows it | evidently intended | confidence | as-written member | corrected member |
|---|---|---|---|---|---|---|
| jackal/scripts/named_pipes.py:56-65 | `create_query` wraps ports, search, tags and groups in one-element lists. `search(**query)` hands them to `create_search`, which calls `.split(',')` on tags, ports and search (jackal/core.py:187, 248, 251) and raises AttributeError. | a section `{type: range, tags: x}`: its Range pipe never builds its search | pass the configured strings, so the pipe searches with the section's tags, up flag, ports and search terms | not executed | NamedPipes.WorkerSearchFails | NamedPipes.WorkerOfIntendedSearch |
