# chat-server core, modelled in Dafny

This project models the two central parts of the chat server.

- The socket event handlers in `server.js`, covering:
  - presence: `connection` and `end`;
  - the friend-request workflow: `friend_request` and `accept_request`;
  - one-to-one conversations: `get_direct_conversations` and `start_conversation`;
  - message history and delivery: `get_messages` and `text_message`.
- The account lifecycle in `controllers/auth.js`, covering:
  - `register`;
  - `sendOTP` and `verifyOTP`;
  - `login`;
  - `protect`, which extracts the token from the `Authorization` header or the `jwt` cookie;
  - `forgotPassword` and `resetPassword`.

The model is laid out in three files:

- `query.dfy` (module `Query`) holds the document store's query semantics.
  - A collection is a sequence whose index is the document id.
  - Ids are given out in creation order.
  - `findOne` and `find(...)[0]` are taken to pick the first match in index order (`FirstWhere`).
  - `find` is taken to list all matches in index order (`AllWhere`).
- `chat_relay.dfy` (module `ChatRelay`) holds the socket handlers.
  - They are methods of the class `Relay`, whose fields are the user records, the pending friend requests, the conversations and an outbox of emits.
  - Each handler is one atomic step.
  - Where the source dereferences a document without checking that it was found, the model's result is `Crashed(fault)`. Whatever the handler stored before that point stays stored.
  - The two read-only handlers are functions of the object.
- `auth.dfy` (module `Auth`) holds the controller.
  - Handlers that update user records are methods of the class `Accounts`. Each is tied to a function that gives the new records and the response.
  - `login` and `protect` only read, so they are functions.
  - The class keeps one invariant: no two accounts share an email.

Some behaviour comes from code outside this model, and appears as parameters:
- the clock (`now`, in milliseconds);
- the one-time password the generator produced;
- the reset token the user model generated;
- the user model's `correctOTP` and `changedPasswordAfter`;
- token decoding (`jwt.verify`).

## Model

| member | source | states |
|---|---|---|
| Query.FirstWhere | controllers/auth.js:31 | The first document in index order that matches: it matches and no earlier one does; none exactly when no document matches |
| Query.AllWhere | server.js:135-137 | `find` returns exactly the ids of the matching documents, in strictly increasing index order |
| Query.FirstWhereAppend | server.js:145-166 | Appending a document keeps an existing first match; otherwise the new document is the first match exactly when it matches |
| Query.FirstWhereAgree | server.js:146 | Two queries that agree on every document pick the same first match |
| ChatRelay.Befriended | server.js:107-122 | Accepting a request appends the recipient to the sender's friends and the sender to the recipient's (a null list counts as empty); every other user, and every socket id and status, is unchanged |
| ChatRelay.FindOrCreate | server.js:145-166 | The returned conversation has exactly two participants, including both users. If one existed, nothing is created and the first such conversation is returned; otherwise exactly one conversation [to, from] with no messages is appended |
| ChatRelay.Appended | server.js:188-201 | A text message is appended at the end of its conversation's history; participants and all other conversations are unchanged |
| ChatRelay.ConversationsOf | server.js:134-139 | A user's listed conversations are exactly those they take part in, in index order |
| ChatRelay.MessagesOf | server.js:169-174 | The history of an existing conversation is returned; null is returned exactly when there is no such conversation |
| ChatRelay.PairsUniqueGivesAtMostOne | server.js:145-154 | While no two conversations share the same pair of distinct users, at most one conversation answers the start-conversation query for two distinct users |
| ChatRelay.DirectMembers | server.js:146 | A conversation answering the query for two distinct users is a pair conversation of exactly those two users |
| ChatRelay.FindOrCreateKeepsAtMostOne | server.js:145-154 | Find-or-create never makes a second conversation answering the query it was asked |
| ChatRelay.FindOrCreateKeepsPairsUnique | server.js:151-154 | Find-or-create keeps every pair of distinct users down to one conversation |
| ChatRelay.FindOrCreateIdempotent | server.js:145-166 | Starting the same conversation again, from either side, returns the same conversation and creates nothing |
| ChatRelay.FindOrCreateListed | server.js:134-166 | The conversation started between two users is listed for both of them |
| ChatRelay.AppendedAllMessages | server.js:188-201 | After N text messages to one conversation, its history is the old history followed by exactly those N messages in order; other conversations are unchanged |
| ChatRelay.Relay.constructor | server.js:55 | A relay starts with no requests, conversations or emits |
| ChatRelay.Relay.Connect | server.js:55-66 | A connecting user who exists and is given gets the socket id and Online; nothing else changes |
| ChatRelay.Relay.SendFriendRequest | server.js:70-96 | A request (sender, recipient) is stored under a fresh id. The recipient gets "new_friend_request", then the sender gets "request_sent". A missing recipient throws before any emit; a missing sender throws after the first emit |
| ChatRelay.Relay.AcceptRequest | server.js:98-132 | The users after accepting are `Befriended`, the request is deleted, and both parties get "request_accepted". A missing request, sender or recipient throws with nothing changed |
| ChatRelay.Relay.GetDirectConversations | server.js:134-140 | The listed ids are exactly the conversations the user takes part in, ascending |
| ChatRelay.Relay.StartConversation | server.js:142-167 | Conversations and id are `FindOrCreate`'s. The chosen conversation is emitted as "start_chat" to the calling socket. Pair uniqueness is preserved |
| ChatRelay.Relay.GetMessages | server.js:169-174 | Gives the conversation's messages, or null exactly when there is no such conversation |
| ChatRelay.Relay.TextMessage | server.js:178-213 | The message stamped `now` is `Appended` to the conversation, then sent to the recipient's and the sender's sockets. A missing conversation throws with nothing stored; a missing user throws after the message is stored |
| ChatRelay.Relay.End | server.js:239-249 | A given, existing user is marked Offline; the socket id, friends and everything else are unchanged |
| Auth.Registered | controllers/auth.js:19-54 | Refuses exactly when a verified account holds the email, changing nothing. Otherwise it overwrites the whitelisted fields of the unverified account with that email, or, when none has it, appends a new unverified account. A client-sent `verified` is ignored, other accounts are unchanged and emails stay unique |
| Auth.OtpChecked | controllers/auth.js:91-130 | "Email invalid or OTP expired" is returned exactly when no account has this email with an expiry strictly after now. Otherwise an OTP the comparison rejects changes nothing, and an accepted one marks the account verified and clears its OTP |
| Auth.OtpVerifiesInTime | controllers/auth.js:56-120 | An OTP sent at t and offered before t + 10 minutes verifies the account it was sent to |
| Auth.OtpRefusedWhenExpired | controllers/auth.js:95-106 | From the expiry instant on, the OTP is refused whatever is offered, and nothing changes |
| Auth.Login | controllers/auth.js:132-162 | "Both required" is returned exactly when the email or password is missing or empty. Success is for the first account with the email, and only when it holds exactly that password; otherwise the credentials are rejected |
| Auth.LoginExactly | controllers/auth.js:142-150 | With unique emails, login succeeds for an account exactly when it holds both the email and the password |
| Auth.RegisterThenLogin | controllers/auth.js:19-54 | An account that register admits can log in with the email and password it registered with |
| Auth.Split | controllers/auth.js:172 | `split(" ")` gives at least one piece, none containing a space, and joining them back with spaces gives the input |
| Auth.SplitOnePiece | controllers/auth.js:172 | A text splits into one piece exactly when it has no space |
| Auth.SplitShape | controllers/auth.js:172 | A text that splits into several pieces has as its second piece the text between the first space and the next space (or the end) |
| Auth.SplitAfterWord | controllers/auth.js:172 | A space-free word followed by a space splits off as the first piece |
| Auth.SplitWord | controllers/auth.js:172 | A space-free text is a single piece |
| Auth.SplitJoin | controllers/auth.js:172 | Split inverts Join on space-free pieces |
| Auth.ExtractToken | controllers/auth.js:167-182 | A header starting with "Bearer" wins. Its token is absent exactly when the header has no space; otherwise it is the text between the first space and the next space (or the end), possibly empty. Otherwise a non-empty `jwt` cookie is used; otherwise there is no token |
| Auth.BearerHeaderToken | controllers/auth.js:168-172 | "Bearer <token>" yields exactly the token, whatever the cookie holds |
| Auth.BareBearerHasNoToken | controllers/auth.js:168-172 | A bare "Bearer" header yields no token, and the cookie is not consulted |
| Auth.Protect | controllers/auth.js:164-211 | "Not logged in" exactly when there is no token. "Rejected" exactly when the token is absent or does not decode. "User gone" exactly when the decoded user does not exist. "Password changed" exactly when the user changed it after the token's issue time. Otherwise access is granted to the decoded user |
| Auth.BearerGrants | controllers/auth.js:164-211 | A Bearer token that decodes to an existing user who has not changed the password since issue grants access to that user |
| Auth.ResetRequested | controllers/auth.js:215-255 | "No user" is returned exactly when no account has the email. Otherwise the first such account (in index order) gets the reset token with an expiry 10 minutes from now, and nothing else changes |
| Auth.PasswordReset | controllers/auth.js:257-300 | "Invalid or expired" is returned, with no change, exactly when no account holds the token with an expiry strictly after now. Otherwise that account gets the new password and confirmation, and both reset fields are cleared |
| Auth.ResetTokenLifetime | controllers/auth.js:239-288 | A fresh reset token resets the password of the account it was issued to when used within 10 minutes, and is refused from then on |
| Auth.ResetTokenSingleUse | controllers/auth.js:265-288 | After a successful reset the same token is refused |
| Auth.Accounts.constructor | controllers/auth.js:19 | The account store starts empty |
| Auth.Accounts.Register | controllers/auth.js:19-54 | New records and outcome are `Registered`'s; email uniqueness is preserved |
| Auth.Accounts.SendOTP | controllers/auth.js:56-89 | Only this account changes: its OTP expiry becomes now + 10 minutes and it stores the six-digit code |
| Auth.Accounts.VerifyOTP | controllers/auth.js:91-130 | New records and outcome are `OtpChecked`'s |
| Auth.Accounts.ForgotPassword | controllers/auth.js:215-255 | New records and outcome are `ResetRequested`'s |
| Auth.Accounts.ResetPassword | controllers/auth.js:257-300 | New records and outcome are `PasswordReset`'s |

## Left out

- Transport (socket.io): rooms, actual delivery and `socket.disconnect` are not modelled. An emit is a record in the outbox, addressed to the socket id stored on the user record, which may be unset.
- `file_message`: not modelled. It has no stored effect: it logs, then calls `path.extname`, which throws because the `path` import at server.js:9 is commented out.
- Process plumbing is not modelled: the server start-up, the database connection and the `unhandledRejection` handler.
- Concurrency: handlers run one at a time, each as one atomic step. Interleavings of their awaits are not modelled.
- `populate` projections of participants: the model returns conversation documents and ids.
- Natural order is an assumption. The document store does not promise that unsorted `find` and `findOne` return documents in creation order. The model takes index order, which decides a result only where several documents match: `start_conversation` with `to = from`, or two accounts holding the same reset token or email.
- Malformed ids, which make the store throw a cast error: not modelled. Ids are natural numbers.
- `jwt.sign`: not modelled. `signToken` returns nothing, so verifyOTP and resetPassword hand out no token, and the model promises none. `login`'s token is not part of `LoginOutcome`.
- The user model (models/user) is not part of this model: password hashing hooks, `correctOTP`, `changedPasswordAfter`, `createPasswordResetToken` and its validators. `correctOTP` and `changedPasswordAfter` are parameters; the reset token is an argument.
- utils/filterObj is not part of this model. It is taken to keep exactly `firstName`, `lastName`, `password` and `email`, and the request body is taken to carry all four.
- The mailer (services/mailer.js): not modelled. The controller never calls it.
- Auth.Accounts.SendOTP: requires an existing account. Its only caller, `register`, passes the id of the account it just created or updated; with a missing account the source throws.
- Auth.Accounts.ForgotPassword: the `catch` branch is not modelled, because store failures (a `save` that throws) are not modelled anywhere.
- Auth.Accounts.ResetPassword: save-time validation of `passwordConfirm` against `password` is part of the user model. It is not modelled.
- Auth.Login: compares the stored password as stored. Hashing by the user model's save hooks is not modelled.
- Auth.ResetTokenLifetime: assumes no other account already holds the fresh token. A token generator collision is not modelled.
- ChatRelay.Relay.AcceptRequest: on a self-request (sender = recipient), the model saves each loaded document whole, receiver first then sender. The user ends with one new friend entry, and `Befriended` states only the sender's list in that case. The source may differ here: the document store records each `friends.push` as an array push, so the two saves at server.js:121-122 can leave two entries.
- ChatRelay.Relay.Connect: the handshake's `user_id` is given as present or absent. An empty string counts as absent.

Behaviour of the code worth noting:

- `friend_request` checks neither that the two users differ nor that they exist. It looks both users up, stores the request, and only then dereferences the lookups (server.js:87 and :93), so a missing user throws after the request is stored.
- `accept_request` appends to the friend lists even when the users are already friends, so duplicates are kept.
- A missing document makes the handler throw instead of answering "not found".
- `get_messages` returns null for an unknown conversation.
- The `start_conversation` query is "two participants, containing both ids". With `to = from` it matches any two-party conversation of that user.
- `end` leaves the stored socket id in place.
- A new conversation's participants are `[to, from]`, in that order.
