# Yeti web: recording download, S3 streaming and active-call chart, in Dafny

This project models three small pieces of the Yeti web application, a Rails
admin and customer front end for a VoIP switch, and proves what each promises.

- **`S3Storage`** (`s3_attachment_wrapper.dfy`) models `S3AttachmentWrapper`.
  It wraps one object of an S3-compatible store and streams it to a block, one
  chunk at a time. Nothing is fetched when no block is given, or when the
  bucket name or object key is `blank?` (nil, empty, or Unicode whitespace
  only). Otherwise every chunk the store delivers is passed on once, in arrival
  order. An error is not caught. A store error escapes after the chunks that
  came before it. An error raised by the block (a response stream whose client
  went away, say) escapes from the `get` and stops the transfer. The AWS client is an `ObjectStore`. It knows what a `get` of each
  object delivers and logs every object it opens. It hands out chunks through
  a `Download`. The block is a `Sink`, which may raise on one given call, and
  "no block" is a null sink.
- **`CustomerCdrs`** (`cdrs_controller.dfy`) models the customer API action
  `rec`. `Decide` is the pure decision. It returns a redirect with the CDR's
  filename and content type, a 404, or the StandardError passed to
  `handle_exceptions`. It follows Ruby's evaluation order, so the record is
  only consulted after the permission check. A nil `@cdr` raises only when
  permission is granted. `head 404` also writes the request format's MIME
  type as `Content-Type`, as Rails' `head` does for a status with content. If `call_record_ct` raises after `X-Accel-Redirect`
  was assigned, that header stays set. `CdrsController` writes the decision
  into its header map, status and body. It also runs the `find_cdr` filter,
  and only for `rec`.
- **`ActiveCallChart`** (`active_call.dfy`) models
  `Stats::ActiveCall.to_stacked_chart` as pure functions. It keeps the rows of
  known nodes, groups them by node name with Ruby's insertion-ordered
  `group_by`, and emits one `{key, values}` series per name.

`wrappers.dfy` holds the shared `Option` type.

Two points of the source's behaviour the model keeps:
- The streaming guard uses Rails `blank?`, so nil and whitespace-only values
  also skip the fetch, not only empty ones. A missing block is a further guard.
- The customer endpoint checks one flag, `allow_listen_recording`, and then
  `has_recording?`. A failure inside `rec` goes to `handle_exceptions`; it does
  not turn into a 404.

## Model

| member | source | states |
|---|---|---|
| `S3Storage.S3AttachmentWrapper.StreamToBang` | app/lib/s3_attachment_wrapper.rb:4-7 | a wrapper built from exactly the given bucket name and key streams to the same block: same objects opened, same chunks forwarded, same error raised, and the bytes delivered are the sink's old bytes followed by the bytes of the chunks forwarded |
| `S3Storage.S3AttachmentWrapper.constructor` | app/lib/s3_attachment_wrapper.rb:12-15 | the wrapper holds exactly the given bucket name and object key |
| `S3Storage.S3AttachmentWrapper.StreamTo` | app/lib/s3_attachment_wrapper.rb:17-23 | with no block, or a blank bucket or key, no object is opened and nothing is forwarded or raised; otherwise exactly one object (the given bucket and key) is opened, every chunk it delivers is passed to the block once and in order, and the store's error, if any, is returned unchanged after the earlier chunks; if the block raises on a chunk, the transfer stops there and the block's error is returned; the wrapper's fields are outside the frame |
| `S3Storage.TargetGuards` | app/lib/s3_attachment_wrapper.rb:18-21 | nothing is fetched iff no block is given or the bucket name or object key is nil or made only of whitespace (empty included); otherwise the object fetched is the one named by the bucket name and key |
| `S3Storage.BlankIff` | app/lib/s3_attachment_wrapper.rb:19 | `blank?` holds exactly for nil, the empty string and whitespace-only strings |
| `S3Storage.AllSpaceIff` | app/lib/s3_attachment_wrapper.rb:19 | the character-by-character match of `[[:space:]]*` accepts a string iff every character is whitespace |
| `S3Storage.ConcatAppend` | app/lib/s3_attachment_wrapper.rb:22 | the bytes of two chunk sequences in a row are the bytes of the first followed by the bytes of the second |
| `S3Storage.ForwardedBytes` | app/lib/s3_attachment_wrapper.rb:22 | the chunks forwarded are a prefix of the object's chunks, all of them unless the block raises first; after forwarding, the sink's bytes are its earlier bytes followed by those chunks' bytes, so with no block error exactly the object's bytes |
| `S3Storage.Download.Next` | app/lib/s3_attachment_wrapper.rb:22 | the block-form `get` delivers the next chunk in order, then the end of the object or its error |
| `S3Storage.ObjectStore.Get` | app/lib/s3_attachment_wrapper.rb:21-22 | building and getting an object logs exactly that object and starts a download of what the store holds for it |
| `S3Storage.Sink.Write` | app/lib/s3_attachment_wrapper.rb:22 | yielding a chunk to the block records exactly that chunk, and the block raises on exactly its given call |
| `CustomerCdrs.RedirectIff` | app/controllers/api/rest/customer/v1/cdrs_controller.rb:10-13 | the answer is a redirect iff the customer may listen to recordings, the CDR has a recording and neither header value raises; it carries `call_record_filename` as path and `call_record_ct` as content type |
| `CustomerCdrs.NotFoundIff` | app/controllers/api/rest/customer/v1/cdrs_controller.rb:10-16 | the answer is 404 iff the permission is missing or the CDR reports no recording |
| `CustomerCdrs.PermissionCheckedFirst` | app/controllers/api/rest/customer/v1/cdrs_controller.rb:10 | without the permission the answer is 404 whatever the record, even a nil one or one whose `has_recording?` raises |
| `CustomerCdrs.ErrorsGoToHandler` | app/controllers/api/rest/customer/v1/cdrs_controller.rb:10-18 | a raise from `has_recording?`, the filename, the content type or a nil record goes to the handler as the first error in evaluation order, with the redirect header set only if the content type raised |
| `CustomerCdrs.CdrsController.HandleExceptions` | app/controllers/api/rest/customer/v1/cdrs_controller.rb:17-18 | the rescued error is recorded as handled and a response counts as rendered |
| `CustomerCdrs.CdrsController.Head` | app/controllers/api/rest/customer/v1/cdrs_controller.rb:15 | `head` sets the status and an empty body, and, for a status with content and no content type yet, the request format's MIME type as `Content-Type` |
| `CustomerCdrs.CdrsController.RecAction` | app/controllers/api/rest/customer/v1/cdrs_controller.rb:9-19 | a redirect sets `X-Accel-Redirect` and `Content-Type`, status 200 and an empty body; a 404 sets status 404, an empty body and no header but the request format's content type (when none was set); an error goes to the handler with only the headers assigned before it |
| `CustomerCdrs.CdrsController.FindCdr` | app/controllers/api/rest/customer/v1/cdrs_controller.rb:23-29 | a successful lookup sets `@cdr` to the found record; a failing one leaves `@cdr` alone and goes to the handler |
| `CustomerCdrs.CdrsController.BeforeAction` | app/controllers/api/rest/customer/v1/cdrs_controller.rb:7 | `find_cdr` runs for `rec`; for any other action the state is left untouched |
| `CustomerCdrs.CdrsController.ServeRec` | app/controllers/api/rest/customer/v1/cdrs_controller.rb:7-19 | on a fresh request, a failed lookup ends in the handler with no headers; otherwise the response is the redirect, the 404 with only the request format's content type, or the handled error, as `Decide` says |
| `CustomerCdrs.ServedResponse` | app/controllers/api/rest/customer/v1/cdrs_controller.rb:9-16 | for a record whose methods return, the response is 200 with a redirect header iff permission and recording both hold, with the CDR's filename and content type; otherwise it is 404 whose only header is the request format's content type |
| `ActiveCallChart.Selected` | app/models/stats/active_call.rb:24 | the filter keeps only rows whose node id is a key of the node map, and never adds rows |
| `ActiveCallChart.First` | app/models/stats/active_call.rb:26 | the first row of a name is a row of that name with no row of that name before it |
| `ActiveCallChart.IndexOf` | app/models/stats/active_call.rb:26 | a name's group is the first group carrying that name |
| `ActiveCallChart.RowsNamedMembers` | app/models/stats/active_call.rb:26 | the rows collected for a name are input rows whose node carries that name |
| `ActiveCallChart.NewGroupHoldsRows` | app/models/stats/active_call.rb:26 | a group opened for a new name holds exactly that name's rows, and the old groups still hold theirs |
| `ActiveCallChart.NewGroupInOrder` | app/models/stats/active_call.rb:26 | a group opened for a new name comes after every old group in first-row order |
| `ActiveCallChart.NewGroupCovers` | app/models/stats/active_call.rb:26 | after a new group is opened, every name with rows still has a group |
| `ActiveCallChart.ExistingGroupHoldsRows` | app/models/stats/active_call.rb:26 | appending a row to its name's group keeps every group holding exactly its name's rows |
| `ActiveCallChart.ExistingGroupInOrder` | app/models/stats/active_call.rb:26 | appending a row to an existing group moves no name's first row |
| `ActiveCallChart.ExistingGroupCovers` | app/models/stats/active_call.rb:26 | after a row is appended to an existing group, every name with rows still has a group |
| `ActiveCallChart.AddNewGroup` | app/models/stats/active_call.rb:26 | a row with a new name opens a group at the end, and the grouping stays a grouping of the longer input |
| `ActiveCallChart.AddToGroup` | app/models/stats/active_call.rb:26 | a row with a known name is appended to that name's group, and the grouping stays a grouping of the longer input |
| `ActiveCallChart.GroupByNameGroups` | app/models/stats/active_call.rb:26 | `group_by` gives one group per name with rows, with distinct names, each group holding exactly its name's rows in order, groups in order of each name's first row, and as many rows in all as in the input |
| `ActiveCallChart.SelectedRowsNamed` | app/models/stats/active_call.rb:24 | the filter does not change the rows of any name |
| `ActiveCallChart.SelectedFirstOrder` | app/models/stats/active_call.rb:24-26 | the filter does not change which of two names appears first |
| `ActiveCallChart.SelectedKeepsKnown` | app/models/stats/active_call.rb:24 | rows that all belong to known nodes pass the filter unchanged |
| `ActiveCallChart.ChartFromGroups` | app/models/stats/active_call.rb:28-36 | each series is `{key: name, values: [...]}` built from one group, one for one and in group order |
| `ActiveCallChart.ChartValues` | app/models/stats/active_call.rb:26-35 | each series holds `[format(created_at), count]` for exactly the rows whose node has the series' name, in input order, and is never empty |
| `ActiveCallChart.ChartKeys` | app/models/stats/active_call.rb:23-30 | series keys are distinct, and a name is a key iff some row's node carries it |
| `ActiveCallChart.ChartOrder` | app/models/stats/active_call.rb:26-30 | series appear in the order in which their names first appear in the input rows |
| `ActiveCallChart.ChartConservesRows` | app/models/stats/active_call.rb:24-35 | the number of values over all series equals the number of rows of known nodes |
| `ActiveCallChart.ChartIgnoresUnknownNodes` | app/models/stats/active_call.rb:23-24 | rows of node ids absent from the node map do not change the chart |
| `ActiveCallChart.NamedRowCollected` | app/models/stats/active_call.rb:26 | every row whose node carries a name is among that name's rows |
| `ActiveCallChart.RowsOfTwoNodes` | app/models/stats/active_call.rb:23-26 | a name shared by two node ids collects every row of either node, and at least as many rows as the two nodes have together |
| `ActiveCallChart.SameNameMerges` | app/models/stats/active_call.rb:23-26 | two node ids with the same name yield exactly one series, which holds `[format(created_at), count]` of every row of either node |

## Left out

- The AWS SDK call `Aws::S3::Object#get`, its transport, authentication and retry are not modelled. The store is a fixed answer per object: its chunks, then its end or its error.
- S3Storage.S3AttachmentWrapper.StreamTo: the value `stream_to` returns is not modelled. It is nil on the guard paths and the `get` response metadata otherwise; the model returns only the error that escapes, if any.
- Time is not modelled. The model does not show that a chunk is forwarded before the next one arrives, or that the object is never held in memory whole.
- A `blank?` value that is neither nil nor a String (a Symbol, say) is outside the model. Bucket names and keys are `Option<string>`.
- `handle_exceptions`, `verify_key`, `find_by_key` and the `TryCdrReplica` replica switch are not part of this model. The lookup is a given value or error. The handler only records the error and marks a response as rendered; the response it renders is not modelled.
- The filter chain is assumed to stop when `find_cdr`'s handler has rendered, as Rails does for a rendered `before_action`.
- `call_record_filename`, `call_record_ct` and `has_recording?` are given values, each of which may raise. Their definitions are not part of this model.
- `Cdr::DownloadPcap`, `Cdr::DownloadCallRecord` and the admin error messages are not part of this model.
- Actions other than `rec` are not modelled beyond `find_cdr` not running for them.
- Rails adds default headers (and `head` a charset setting) and folds header-name case; the model's header map starts empty and keys are exact strings. The request format's MIME type is an input.
- The database query, the `hours_ago` scope and the node lookup are not modelled. Rows and the id-to-name map are inputs, and rows come in the order the database returns them. `to_datetime.to_fs(:db)` is the parameter `format`. `created_at` is an integer timestamp, so a nil `created_at` is not modelled.
- `count` is an unbounded integer; the column's 32-bit range plays no part in the grouping.
- Process configuration, policy-role loading, RTP statistics models and the routing-plan resource are not part of this model.
