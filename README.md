# NetGraph: the server side of the nengo_viz network graph

This project models `nengo_viz/components/netgraph.py`, the component that
sends a nengo model to the browser one network at a time. It also proves
properties of that model. The component does four things, and the model
covers each:

- It keeps a FIFO queue of objects (normally networks) still to be sent
  (`to_be_expanded`). Each `update_client` pops one object and expands it;
  `act_expand` queues any registered object, and a queued object that is
  not a network makes the expansion fail. Expanding announces
  the network's ensembles, nodes and sub-networks, then its connections,
  and finally marks the network expanded.
- It builds a lazy parent index (`get_parents`), which walks the network
  tree breadth-first. The walk fills a `uid -> parent uid` map and goes only
  as far as the queried uid needs. The ancestor chain is then read off that
  map. A connection is reported with the chains of both of its ends, each
  without the final (root) element.
- It holds a layout configuration (`Config`): a position and a size for
  each object, and an `expanded` flag for each network. The client's
  `act_*` messages change this configuration. `Config.dumps` writes it out
  as `config[<uid>].<attr>=<value>` lines in uid order.
- It sends the view of the model, with defaults filled in
  (`send_pan_and_zoom`).

Everything the component writes to the client is modelled as a `Message`
record appended to `Client.written`.

Modules, one per file:

- `Base` (base.dfy): uids, `Option`, `Result`, and the exceptions the
  component lets escape.
- `Networks` (networks.dfy): the object tree.
  - `WellFormed` means `get_uid` is injective on the tree.
  - It gives reference definitions of the true parent (`ParentUid`), the
    depth and the ancestry (`Ancestry`) of a uid.
- `ParentIndex` (parents.dfy): the search and the chain as functions, and
  the invariant `Consistent` that the search preserves.
  - The functions `Step`, `Search` and `Chain` specify the imperative
    `GetParents`.
- `Layout` (layout.dfy): `Config`, Python's string order, `dumps` and
  `'\n'.join`.
- `NetGraphs` (netgraph.dfy): the `NetGraph` class and its methods.
  - Its fields are the source's attributes: `config`, `to_be_expanded`,
    `uids`, `parents` and `networks_to_search`.
  - Its methods update those fields in place.

## Model

Five lemmas have no row because they are generic facts about sequences and maps, used as proof steps: `NetGraphs.AppendTwice`, `NetGraphs.AnnouncementsSnoc`, `NetGraphs.ConnectionObjsSnoc`, `NetGraphs.EndsGrow` and `NetGraphs.EndsSnoc`.

| member | source | states |
|---|---|---|
| Networks.Ancestry | nengo_viz/components/netgraph.py:56-73 | The reference ancestry of a uid starts at that uid and ends at the root. Each element after the first is the true parent, in the tree, of the element before it. |
| Networks.Decimal | nengo_viz/components/netgraph.py:194 | `'%d' % n` is a non-empty string of decimal digits. It starts with `0` only when `n` is zero, so there are no leading zeros. |
| Networks.DigitsValue | nengo_viz/components/netgraph.py:194 | The number a string of decimal digits denotes, most significant digit first. It is the reference reading that `DecimalValue` checks `Decimal` against. |
| Networks.DecimalValue | nengo_viz/components/netgraph.py:194 | Reading back the digits that `'%d' % n` prints gives `n`. |
| Networks.ConnUid | nengo_viz/components/netgraph.py:194 | A connection's uid is `conn_` followed by its `id` in decimal; `ConnUidInjective` states what it identifies. |
| Networks.ConnUidInjective | nengo_viz/components/netgraph.py:194 | Two connections get the same `conn_` uid if and only if they have the same `id`. |
| Layout.Config.Put | nengo_viz/components/netgraph.py:10-20 | Setting an object's parameters changes what is read back for that object, and for no other object. |
| Layout.Config.Get | nengo_viz/components/netgraph.py:15-20 | `self[obj]` reads what was set for the object, or else the declared defaults: `pos` and `size` are `None`, and `expanded` is `False`. `Put` states how it reads back after a write. |
| Layout.SortedKeys | nengo_viz/components/netgraph.py:24 | `sorted(uids.items())` visits every key exactly once, in strictly ascending Python string order. |
| Layout.Smallest | nengo_viz/components/netgraph.py:24 | The element picked first from the remaining keys is below every other remaining key. |
| Layout.BelowTotal | nengo_viz/components/netgraph.py:24 | Python's string order is total on distinct strings. |
| Layout.BelowTransitive | nengo_viz/components/netgraph.py:24 | Python's string order is transitive. |
| Layout.BelowAsymmetric | nengo_viz/components/netgraph.py:24 | Python's string order is asymmetric. |
| Layout.Below | nengo_viz/components/netgraph.py:24 | Python's `<` on `str`, which orders the keys for `sorted(uids.items())`: lexicographic by character, a proper prefix first. `BelowIrreflexive`, `BelowAsymmetric`, `BelowTransitive` and `BelowTotal` prove it is a strict total order. |
| Layout.BelowIrreflexive | nengo_viz/components/netgraph.py:24 | Python's string order is irreflexive. |
| Layout.ObjectEntriesMembers | nengo_viz/components/netgraph.py:25-34 | For one object, `dumps` writes one line per attribute of its kind, with the configured value: `pos` then `size` for an ensemble or node; `pos`, `size` then `expanded` for a network; nothing for a connection. |
| Layout.EntriesOrdered | nengo_viz/components/netgraph.py:24-34 | With ascending keys, the lines are ordered by uid, and within one uid by `pos`, `size`, `expanded`. Every line names one of the keys. |
| Layout.EntriesMembers | nengo_viz/components/netgraph.py:24-34 | A line is written if and only if its object has that attribute, and it carries that object's configured value. |
| Layout.AllEntriesSpec | nengo_viz/components/netgraph.py:22-34 | `dumps` writes exactly one line per attribute of each configurable object in `uids`, with its configured value, in sorted uid order. |
| Layout.EntriesEmpty | nengo_viz/components/netgraph.py:24-34 | The keys give no lines if and only if every one of them names a connection. |
| Layout.AllEntriesEmpty | nengo_viz/components/netgraph.py:22-34 | `dumps` has no lines if and only if `uids` holds only connections. |
| Layout.ObjectEntries | nengo_viz/components/netgraph.py:25-34 | The lines one loop iteration writes for an object, before formatting. `ObjectEntriesMembers` states its contents and order. |
| Layout.Entries | nengo_viz/components/netgraph.py:24-34 | The lines for the given keys, in key order. `EntriesOrdered` and `EntriesMembers` state what they are. |
| Layout.AllEntries | nengo_viz/components/netgraph.py:22-34 | The lines for every key of `uids`, in sorted order. `AllEntriesSpec` states what they are. |
| Layout.ShowValue | nengo_viz/components/netgraph.py:26-34 | `%s` of a value: `None`, `True` and `False` are printed literally, and a tuple is printed through the abstract `show`. |
| Layout.Render | nengo_viz/components/netgraph.py:26-34 | One `config[<uid>].<attr>=<value>` line. `RenderNoNewline` is the fact about it that the split round trip needs. |
| Layout.Lines | nengo_viz/components/netgraph.py:23-34 | The `lines` list of `dumps`: each entry rendered, in order. |
| Layout.Join | nengo_viz/components/netgraph.py:35 | `'\n'.join`: a separator between lines and none after the last. `SplitJoin` and `JoinLast` state this. |
| Layout.Dumps | nengo_viz/components/netgraph.py:22-35 | `Config.dumps(uids)` is the join of its lines. `DumpsSplits`, `DumpsEmpty` and `AllEntriesSpec` state what they are. |
| Layout.Split | nengo_viz/components/netgraph.py:35 | Splitting a string on newlines gives at least one piece. |
| Layout.SplitJoin | nengo_viz/components/netgraph.py:35 | `'\n'.join` of newline-free lines splits back into exactly those lines. |
| Layout.JoinLast | nengo_viz/components/netgraph.py:35 | The joined text ends with the last character of the last line, so no separator follows it. |
| Layout.RenderNoNewline | nengo_viz/components/netgraph.py:26-34 | A `config[...]` line contains no newline when the uid and the printed values contain none. |
| Layout.DumpsSplits | nengo_viz/components/netgraph.py:22-35 | The `dumps` text splits on `'\n'` back into exactly its lines and never ends with a newline. It is empty if and only if there are no lines. |
| Layout.JoinEmpty | nengo_viz/components/netgraph.py:35 | Joining non-empty lines gives the empty string only when there are no lines. |
| Layout.DumpsEmpty | nengo_viz/components/netgraph.py:22-35 | For any uids and any tuple text, `dumps` returns the empty string if and only if every announced object is a connection. |
| ParentIndex.AdoptAll | nengo_viz/components/netgraph.py:60-68 | After one inner loop, each listed uid has the network as its recorded parent. Every other entry is unchanged, and no entry is dropped. |
| ParentIndex.AdoptThree | nengo_viz/components/netgraph.py:60-68 | After the three inner loops back to back, each node, ensemble and sub-network uid is mapped to the network, and every other entry is unchanged. |
| ParentIndex.Step | nengo_viz/components/netgraph.py:58-69 | One pass of the search loop: pop the head, record it as the parent of its nodes, ensembles and sub-networks, and append the sub-networks to the tail. `StepRecords`, `StepConsistent` and `StepShrinks` state what it does. |
| ParentIndex.StepRecords | nengo_viz/components/netgraph.py:58-69 | One pass maps every child of the popped network to that network's uid, and leaves every other entry as it was. |
| ParentIndex.StepShrinks | nengo_viz/components/netgraph.py:58-69 | Each pass removes one network from the networks still reachable through the queue, so the search cannot loop forever. |
| ParentIndex.Search | nengo_viz/components/netgraph.py:57-69 | The search stops with `uid` recorded, or with the queue empty, which is where `pop(0)` raises. Recorded entries are never dropped. If `uid` is already recorded, nothing is popped. |
| ParentIndex.RunStep | nengo_viz/components/netgraph.py:57-69 | `k` passes are one pass followed by `k - 1` more. |
| ParentIndex.SearchIsShortestRun | nengo_viz/components/netgraph.py:57-58 | Minimal work: the search equals some number `k` of passes, and before each of them `uid` was still missing and the queue was non-empty. |
| ParentIndex.ConsistentInit | nengo_viz/components/netgraph.py:48-49 | The empty index with the root queued satisfies the index invariant. |
| ParentIndex.StepCovers | nengo_viz/components/netgraph.py:58-69 | A uid below the queued networks is, after a pass, either recorded or still below a queued network. |
| ParentIndex.PendingBelowHead | nengo_viz/components/netgraph.py:58-69 | A uid strictly below the popped network is one of its children, or lies below a sub-network appended to the tail of the queue. |
| ParentIndex.StepRanked | nengo_viz/components/netgraph.py:58-69 | Every entry a pass records is the true parent in the tree, and each recorded parent is the root or itself recorded. |
| ParentIndex.ChildRecorded | nengo_viz/components/netgraph.py:66-69 | Each sub-network appended to the queue was recorded in the same pass. |
| ParentIndex.StepQueue | nengo_viz/components/netgraph.py:58-69 | After a pass, every queued network lies in the tree and is the root or recorded. |
| ParentIndex.StepConsistent | nengo_viz/components/netgraph.py:58-69 | One pass preserves the index invariant. |
| ParentIndex.SearchConsistent | nengo_viz/components/netgraph.py:57-69 | The search preserves the index invariant. It finds `uid` if and only if `uid` is in the tree and is not the root; otherwise the queue runs dry and `pop(0)` fails. |
| ParentIndex.Chain | nengo_viz/components/netgraph.py:70-73 | The chain is non-empty and starts at `uid`. Each later element is the recorded parent of the one before it, and the last element has no entry. |
| ParentIndex.ParentStep | nengo_viz/components/netgraph.py:71-72 | A recorded parent is the true parent and lies one level higher, which is why the chain loop terminates. |
| ParentIndex.ChainStep | nengo_viz/components/netgraph.py:71-72 | Following one recorded parent extends the chain by exactly that parent. |
| ParentIndex.LinkedTail | nengo_viz/components/netgraph.py:71-72 | The tail of a parent-linked chain is parent-linked. |
| ParentIndex.LinkedCons | nengo_viz/components/netgraph.py:71-72 | Putting a uid in front of a chain that starts at its recorded parent keeps the chain parent-linked. |
| ParentIndex.LinkedAppend | nengo_viz/components/netgraph.py:71-72 | Appending the recorded parent of the last element keeps the list parent-linked. |
| ParentIndex.ChainUnique | nengo_viz/components/netgraph.py:70-73 | Any list that starts at `uid`, steps to the recorded parent each time and stops at an unrecorded uid is exactly the chain. |
| ParentIndex.ChainIsAncestry | nengo_viz/components/netgraph.py:56-73 | Read off a consistent index, the chain is the true ancestry of `uid` in the tree, ending at the root. |
| NetGraphs.Client.Write | nengo_viz/components/netgraph.py:177 | `client.write` appends one record to what the client has received. |
| NetGraphs.Panned | nengo_viz/components/netgraph.py:126 | The model's parameters after `act_pan(x, y)`: the position becomes `(x, y)`. `NetGraph.ActPan` states that this is the new layout, and `ReportedView` states what the next report then gives. |
| NetGraphs.Zoomed | nengo_viz/components/netgraph.py:131-132 | The model's parameters after `act_zoom(scale, x, y)`: the size becomes `(scale, scale)` and the position `(x, y)`. `NetGraph.ActZoom` states that this is the new layout, and `ReportedView` states what the next report then gives. |
| NetGraphs.ReportedView | nengo_viz/components/netgraph.py:124-133 | After `act_zoom(scale, x, y)`, the next report gives pan `(x, y)` and zoom `scale`. After `act_pan(x, y)`, it gives pan `(x, y)` and the old zoom. With nothing set, it gives `(0, 0)` and `1.0`. |
| NetGraphs.PanOf | nengo_viz/components/netgraph.py:180-182 | The pan `send_pan_and_zoom` reports: the model's position, or `(0, 0)`. `ReportedView` relates it to `act_pan` and `act_zoom`. |
| NetGraphs.ZoomOf | nengo_viz/components/netgraph.py:183-187 | The zoom `send_pan_and_zoom` reports: the first component of the model's size, or `1.0`. `ReportedView` relates it to `act_zoom`. |
| NetGraphs.Placed | nengo_viz/components/netgraph.py:161-169 | After `create_object`, a missing position becomes the placement (the source draws it at random), and a missing size becomes `(0.1, 0.1)`. A position or size that was set is kept, and the `expanded` flag is untouched. |
| NetGraphs.PlacedIdempotent | nengo_viz/components/netgraph.py:161-169 | Creating an object a second time changes none of its layout. |
| NetGraphs.Announcement | nengo_viz/components/netgraph.py:170-177 | The record `create_object` writes: the uid, the position and size after defaults, the type tag and the parent, and `expanded` only for a network. `NetGraph.CreateObject` states that this is what it writes. |
| NetGraphs.KindOf | nengo_viz/components/netgraph.py:150-155 | The `type=` tag each `create_object` loop passes: `ens` for an ensemble, `node` for a node, `net` for a sub-network. It is the tag `Announcement` carries. |
| NetGraphs.Announcements | nengo_viz/components/netgraph.py:150-155 | The log of the three `create_object` loops: one `Announcement` per object, in order. `NetGraph.CreateObjects`, `NetGraph.CreateChildren` and `AnnouncementStep` state their writes in terms of it. |
| NetGraphs.Registered | nengo_viz/components/netgraph.py:172 | After registering a sequence of objects, the keys of `uids` are the old keys plus those objects' uids. |
| NetGraphs.RegisteredEntries | nengo_viz/components/netgraph.py:172 | With distinct uids, each registered object is stored under its own uid, and every other entry keeps its old object. |
| NetGraphs.RegisteredAppend | nengo_viz/components/netgraph.py:150-157 | Registering two sequences one after the other is the same as registering their concatenation. |
| NetGraphs.RegisteredSnoc | nengo_viz/components/netgraph.py:172 | One more object adds exactly its entry to `uids`. |
| NetGraphs.FreshUid | nengo_viz/components/netgraph.py:150-155 | With injective `get_uid`, no child's uid was already used by an earlier child. |
| NetGraphs.PlacedStep | nengo_viz/components/netgraph.py:161-169 | Creating the `i`th object places exactly its uid as well. The object's layout was untouched by the earlier objects. |
| NetGraphs.AnnouncementStep | nengo_viz/components/netgraph.py:170-177 | The `i`th announcement, made from a layout that agrees with the original one on that object, extends the log of the earlier objects. |
| NetGraphs.LinkEnds | nengo_viz/components/netgraph.py:196-198 | The `pre` list of a connection record starts at the end object. Each element is followed by its true parent. All of its elements lie in the tree without being the root, and the last has the root as its parent, so the root is dropped and nothing else is. |
| NetGraphs.ParentField | nengo_viz/components/netgraph.py:146-149 | The `parent` that `expand_network` passes on: `None` for the model, the network's own uid otherwise. `NetGraph.ExpandNet` calls `AnnounceContents` with it, and `Link` and `Announcement` carry it. |
| NetGraphs.DropLast | nengo_viz/components/netgraph.py:196-197 | `s[:-1]` is one element shorter than `s`, or empty when `s` is, and agrees with `s` on every index it has. |
| NetGraphs.Link | nengo_viz/components/netgraph.py:194-199 | The record `create_connection` writes: the `conn_` uid, each end's ancestry with the root dropped, and the parent. `LinkEnds` states its shape. |
| NetGraphs.Links | nengo_viz/components/netgraph.py:156-157 | The connection loop writes one record per connection. |
| NetGraphs.LinkAt | nengo_viz/components/netgraph.py:156-157 | The `i`th record the connection loop writes is the record of the `i`th connection. |
| NetGraphs.LinksEntries | nengo_viz/components/netgraph.py:156-157 | In order, the records are exactly the connections' records: the `i`th record belongs to the `i`th connection. |
| NetGraphs.ChildObjsFacts | nengo_viz/components/netgraph.py:150-155 | The objects `expand_network` creates are exactly the network's children. None of them is a connection, and their uids are distinct when the tree's are. |
| NetGraphs.LinksSnoc | nengo_viz/components/netgraph.py:156-157 | One more connection adds exactly its record. |
| NetGraphs.LinksStep | nengo_viz/components/netgraph.py:156-157 | Writing the next connection's record extends the log to the records of the first `i + 1` connections. |
| NetGraphs.RegisteredConnStep | nengo_viz/components/netgraph.py:195 | Registering the next connection extends `uids` to the first `i + 1` connections. |
| NetGraphs.ExpansionMessages | nengo_viz/components/netgraph.py:150-157 | Everything a completed `expand_network` writes: the children's announcements, then one record per connection. `NetGraph.AnnounceContents`, `ExpandNet`, `ExpandNetwork` and `UpdateClient` state their log on success in terms of it, and `ExpansionLog` proves it is what the loops write. |
| NetGraphs.ExpansionLog | nengo_viz/components/netgraph.py:150-157 | The log of an expansion is the children's announcements followed by the connections' records. `uids` gains the children, then the connections. |
| NetGraphs.KidsPlaced | nengo_viz/components/netgraph.py:150-155 | The layout the `create_object` loops leave: every child of the network placed as `Placed` says, every other uid as it was. `ExpansionConfig` proves that setting the flag on top of it gives `ExpandedConfig`. |
| NetGraphs.ConnSearch | nengo_viz/components/netgraph.py:196-197 | The parent index after `create_connection`: `get_parents` of the pre end and, only when that finds it, of the post end. It never loses an entry, and when both ends are already recorded it leaves the index exactly as it was. |
| NetGraphs.ConnSearches | nengo_viz/components/netgraph.py:156-157 | The parent index after the connection loop: `ConnSearch` for each connection in turn. It never loses an entry. |
| NetGraphs.ConnSearchesSnoc | nengo_viz/components/netgraph.py:156-157 | One more connection applies exactly its `ConnSearch` to the index. |
| NetGraphs.ConnSearchRecords | nengo_viz/components/netgraph.py:196-197 | On a consistent index, a connection whose ends lie below the root keeps the index consistent and leaves both ends recorded. |
| NetGraphs.ConnSearchesRecord | nengo_viz/components/netgraph.py:156-157 | After a connection loop whose ends all lie below the root, the index is consistent and every end has an entry. |
| NetGraphs.ConnSearchesRecorded | nengo_viz/components/netgraph.py:156-157 | When every end already has an entry, the connection loop runs no search pass: the index, with its search queue, stays exactly as it was. |
| NetGraphs.EndsIn | nengo_viz/components/netgraph.py:196-197 | Both ends of every connection have an entry in the index. `ConnSearchesRecord` and `ConnSearchesRecorded` are stated in terms of it. |
| NetGraphs.ExpandedConfig | nengo_viz/components/netgraph.py:158-169 | The layout `expand_network` leaves for a uid. `ExpansionLayout` states what it is. |
| NetGraphs.ExpansionLayout | nengo_viz/components/netgraph.py:158-169 | Expansion leaves the network marked expanded with the rest of its layout kept. Every child ends up with a position and a size, and keeps whatever was set before. |
| NetGraphs.ExpansionConfig | nengo_viz/components/netgraph.py:150-158 | Placing the children and then setting the flag gives the expanded layout, for every uid. |
| NetGraphs.ChildrenCreatable | nengo_viz/components/netgraph.py:150-155 | A network in the tree has no connection among its created children. Its child networks are in the tree, and its children's uids are distinct and are exactly its children's uids. |
| NetGraphs.ChildNetworksOccur | nengo_viz/components/netgraph.py:154-155 | A network in the tree has all of its child networks in the tree. |
| NetGraphs.SelfNotKid | nengo_viz/components/netgraph.py:145-158 | A well-formed network is not its own child, so setting its flag does not disturb a child's layout. |
| NetGraphs.NetGraph.constructor | nengo_viz/components/netgraph.py:40-49 | The model is the only network queued to be sent and the only network queued to be searched. `uids` and `parents` are empty. |
| NetGraphs.NetGraph.SearchPass | nengo_viz/components/netgraph.py:58-69 | One pass of the search loop updates `parents` and the queue exactly as one `Step` does: the children are recorded and the sub-networks are appended to the tail. |
| NetGraphs.NetGraph.FollowParents | nengo_viz/components/netgraph.py:70-73 | The chain loop returns `Chain`: the uid, then the recorded parent of the previous element, up to an element with no entry. |
| NetGraphs.NetGraph.GetParents | nengo_viz/components/netgraph.py:56-73 | The search does exactly the `Search` passes and keeps the index consistent. A uid already recorded pops nothing. The call succeeds if and only if the uid is in the tree and is not the root. Otherwise it raises `IndexError`, with the queue empty and the uid unrecorded. On success the result is the recorded chain and equals the true ancestry. |
| NetGraphs.NetGraph.SendPanAndZoom | nengo_viz/components/netgraph.py:179-189 | Writes the pan record and then the zoom record. The pan is the model's position or `(0, 0)`. The zoom is the first component of its size or `1.0`. |
| NetGraphs.NetGraph.CreateObject | nengo_viz/components/netgraph.py:160-177 | Fills in the object's missing position (an arbitrary placement) and missing size `(0.1, 0.1)`. Registers the object under its uid. Writes one announcement carrying the uid, position, size, type tag and parent, with `expanded` only for networks. |
| NetGraphs.NetGraph.CreateObjects | nengo_viz/components/netgraph.py:150-155 | The create loops announce the objects in order and place exactly those objects. `uids` becomes the old map with them registered. |
| NetGraphs.NetGraph.CreateChildren | nengo_viz/components/netgraph.py:150-155 | For a network in the tree, the first three loops announce ensembles, nodes and sub-networks in order, place exactly the network's children and register them. |
| NetGraphs.NetGraph.FindEnds | nengo_viz/components/netgraph.py:196-197 | The two `get_parents` calls: the index becomes `ConnSearch` of the old one. They succeed if and only if both ends are in the tree and neither is the root, and then return both ancestries. Otherwise they raise `IndexError`. |
| NetGraphs.NetGraph.CreateConnection | nengo_viz/components/netgraph.py:191-199 | Registers `conn_<id>`. Succeeds if and only if both ends are in the tree and neither is the root. It then writes one record whose `pre` and `post` are the ends' ancestries without the root. Otherwise it raises `IndexError` and writes nothing. In both cases the parent index becomes `ConnSearch` of the old one. |
| NetGraphs.NetGraph.CreateConnections | nengo_viz/components/netgraph.py:156-157 | The connection loop succeeds if and only if every connection can be placed, and then writes their records in order and registers all of them. The parent index becomes `ConnSearches` of the old one. The first failure raises `IndexError`, leaving what was written so far. |
| NetGraphs.NetGraph.AnnounceContents | nengo_viz/components/netgraph.py:150-157 | The four loops of `expand_network`: they succeed if and only if every connection can be placed. The log gains the children's announcements, then the connection records. The children are placed and registered, and then the connections are registered. On success the parent index becomes `ConnSearches` of the old one over the network's connections. |
| NetGraphs.NetGraph.ExpandNet | nengo_viz/components/netgraph.py:145-158 | The parent field is `None` for the model and the network's uid otherwise. On success the log gains the expansion's records, the layout becomes the expanded layout (network marked expanded, children placed) and every created object is registered. The parent index becomes `ConnSearches` of the old one. On failure it raises `IndexError` before the flag is set: the children are placed, and every other uid, the network's own included, keeps its old layout. |
| NetGraphs.NetGraph.ExpandNetwork | nengo_viz/components/netgraph.py:145-158 | A queued object that is not a network raises `AttributeError` and changes nothing. A network is expanded as `ExpandNet` states, with the parent index becoming `ConnSearches` of the old one on success, and on `IndexError` the log keeps its old records and the children are placed while the network's flag is left as it was. |
| NetGraphs.NetGraph.UpdateClient | nengo_viz/components/netgraph.py:90-99 | With an empty queue, nothing changes and nothing is written. Otherwise exactly the head of the queue is removed and expanded. A head that is not a network raises `AttributeError` and changes nothing else. A network head fails only with `IndexError`. Then the log keeps every record it had, the head's children are placed and every other uid keeps its layout. On success the head is a network and is now marked expanded. Its children are placed. The children and then the connections are registered. The parent index becomes `ConnSearches` of the old one over the head's connections. The log gains the expansion records, followed by pan and zoom only when the head is the model. |
| NetGraphs.NetGraph.SetExpanded | nengo_viz/components/netgraph.py:116 | Setting `expanded` changes only that network's flag. On any other object the configuration refuses it and nothing changes. |
| NetGraphs.NetGraph.ActExpand | nengo_viz/components/netgraph.py:113-117 | An unknown uid raises `KeyError` and changes nothing. Otherwise the object is appended to the tail of the queue and then flagged expanded. A non-network is still queued, and the flag is refused with a configuration error. |
| NetGraphs.NetGraph.ActCollapse | nengo_viz/components/netgraph.py:119-122 | Leaves the queue alone. An unknown uid raises `KeyError`. Otherwise the network's flag becomes false and nothing else changes. A non-network is refused. |
| NetGraphs.NetGraph.ActPan | nengo_viz/components/netgraph.py:124-127 | The model's position becomes `(x, y)`, and nothing else in the layout changes. |
| NetGraphs.NetGraph.ActZoom | nengo_viz/components/netgraph.py:129-133 | The model's size becomes `(scale, scale)` and its position `(x, y)`, and nothing else changes. |
| NetGraphs.NetGraph.ActPos | nengo_viz/components/netgraph.py:135-138 | An unknown uid raises `KeyError`, and a connection is refused. Otherwise only that object's position becomes `(x, y)`. |
| NetGraphs.NetGraph.ActSize | nengo_viz/components/netgraph.py:140-143 | An unknown uid raises `KeyError`, and a connection is refused. Otherwise only that object's size becomes `(width, height)`. |

## Left out

- `save_config` (lines 51-54) and the `self.save_config()` call at the end of every `act_*` handler are left out. They write `dumps` to a file, and file I/O is not modelled. `dumps` itself is modelled.
- `find_config` (lines 75-88) is left out. It reads a file and `exec`s it, and it uses a class-wide cache. The constructor takes the configuration as a parameter instead.
- `message` (lines 104-111) is left out. It is JSON parsing and reflective dispatch through `getattr`. The `act_*` handlers are modelled directly as methods.
- `javascript` (lines 101-102), the `print` diagnostics and `get_label` are left out. They are output only, and object records carry no label.
- The lock in `update_client` (lines 92 and 97) is left out because it only serves concurrency with the simulator thread. A failing expansion in the source would also leave that lock held.
- The JSON encoding and the transport of `client.write` are left out. Each write is a `Message` record appended to `Client.written`.
- `create_object` draws a random initial position (line 164). It is modelled as an arbitrary function `placement` from uid to position, given by the caller.
- Positions and sizes are kept as opaque pairs of reals.
  - In `Config.dumps`, the `%s` text of a tuple comes from an abstract `show` function.
  - The model does not capture Python float formatting.
- `nengo.Config` is modelled as a map from uid to three parameters, with the declared defaults.
  - The source raises when a parameter is set on an unconfigured kind of object. The model gives `ConfigError`: `expanded` on anything but a network, and `pos` or `size` on a connection.
  - The exact nengo exception class is not modelled.
- `get_uid` is modelled as the object's own uid field. Its injectivity over the tree is the assumption stated by `Networks.WellFormed`.
- `id(conn)` is modelled as a natural number carried by the connection.
- `network is self.viz.model` is modelled as value equality with the model. The two agree on trees where uids are distinct.
- In `create_connection` the connection is registered before its ends' uids are looked up. In the source the lookups come first. Neither step has an effect the other sees.
- NetGraphs.NetGraph.CreateObjects: the three `create_object` loops of `expand_network` (lines 150-155) are modelled as one loop over the ensembles, then the nodes, then the sub-networks. That loop visits the same objects in the same order with the same type tags.
- The bodies of `get_parents` and `expand_network` are not kept as single methods. `get_parents` is split into `SearchPass` (one pass of its first loop) and `FollowParents` (its second loop). The two `get_parents` calls of `create_connection` form `FindEnds`. `expand_network` is split into `CreateChildren`, `CreateConnections`, `AnnounceContents` and `ExpandNet`, which run its steps in the same order.
- NetGraphs.NetGraph.CreateConnections: on an `IndexError` the contract states only that the log so far is kept. It does not state which connection records were written before the failure, which connections `uids` gained, or the parent index the partial loop leaves.
- NetGraphs.NetGraph.AnnounceContents: on failure the contract does not state the `uids`, the parent index, or which records followed the old log, for the same reason as `CreateConnections`. The layout is stated in both cases.
- NetGraphs.NetGraph.ExpandNet: on failure the contract does not state the `uids` or the parent index that the partial connection loop leaves behind, nor which records it wrote.
- NetGraphs.NetGraph.ExpandNetwork: on `IndexError` the contract does not state the `uids`, or which records followed the old log, for the same reason as `ExpandNet`.
- NetGraphs.NetGraph.UpdateClient: when a network at the head fails with `IndexError`, the contract does not state the `uids`, the parent index, or which records followed the old log, for the same reason as `ExpandNet`. The source lets the exception escape `update_client` (line 94), so `send_pan_and_zoom` is not reached.
