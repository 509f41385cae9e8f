# hack_bot assistant: a Dafny model of the token gate, the prompt and the link check

`assistantBot.py` is a Flask chat bot for holders of an NFT. This project models its core:

- **Token gate.** `authenticate` recovers the signer of the fixed challenge `"Access to chat bot"`, reads the signer's token balance from the contract, and decides:
  - a positive balance gets a 302 redirect to `/gpt` with a fresh `authToken` cookie (`HttpOnly`, `Secure`, `SameSite=Strict`);
  - any other balance gets the text `"You don't have the required NFT!"`.
- **Session guard.** `has_auth_token` admits a request exactly when its cookies carry an `authToken` key. It admits any value, including the empty string.
- **Prompt assembly.** `ask_gpt` embeds the question, queries the vector index `hc` for 5 matches with metadata, and collects each match's `metadata["text"]`. It builds the augmented prompt from four pieces:
  - the texts joined by `"\n\n---\n\n"`;
  - the divider `"\n\n-----\n\n"`;
  - the question;
  - the fixed instruction suffix.

  It then sends the prompt, with the system primer, to `gpt-3.5-turbo` at temperature 0.1.
- **Link check.** `test_urls_from_response_okay` finds the URLs in an answer with `re.findall(r"https?://\S+", …)` and strips trailing dots. It then checks the URLs in order and raises `ValueError(url)` at the first one that:
  - contains `"academy"`, before any request is sent; or
  - has a HEAD request that comes back 401, 403 or 404.
- **Error mapping.** The `/api` handler `react_description` returns `{"output": answer}`. A `ValueError` becomes the fixed apology `"Sorry, could you please repharse the question?"` (spelled as in the source). Any other exception is not caught.

Everything outside the program is a parameter that returns `Ok(value)` or `Raise(exception)`:

- signature recovery;
- the `balanceOf` call;
- the embedding, index and chat services;
- the HEAD request.

So an exception raised by any of these calls is part of the model, and so are the errors the modelled code raises itself, except the few listed under "## Left out". `authenticate` is a method that builds a response object and updates it in place with `set_cookie`. The method is proved against the pure decision `AuthOutcome`. The URL scan and the check loop are methods with loop invariants, proved against the functions `FindUrls`, `Probe` and `CheckText`.

Files:

| file | module | contents |
|---|---|---|
| `outcomes.dfy` | `Outcomes` | `Option`, Python exceptions, and `Outcome` |
| `text.dfy` | `Text` | `sep.join`, `sub in s`, `startswith` |
| `token_gate.dfy` | `TokenGate` | `authenticate` |
| `session_guard.dfy` | `SessionGuard` | `has_auth_token` |
| `prompt.dfy` | `Prompt` | `ask_gpt` |
| `link_check.dfy` | `LinkCheck` | `test_urls_from_response_okay` |
| `api.dfy` | `Api` | `react_description` |

## Model

| member | source | states |
|---|---|---|
| `TokenGate.SessionCookie` | assistantBot.py:83-85 | the `authToken` cookie holding the token, HttpOnly, Secure, SameSite strict, with no max-age; `TokenGate.Decide` states that a redirect carries exactly this cookie and that it is hardened |
| `TokenGate.Decide` | assistantBot.py:80-88 | a redirect exactly when balance > 0; the redirect is a 302 to `/gpt` with exactly one cookie, which is hardened (`authToken`, HttpOnly, Secure, SameSite strict, no max-age) and carries the token; otherwise the body is exactly the denial text and there is no cookie |
| `TokenGate.AuthOutcome` | assistantBot.py:74-88 | recovery runs over the fixed challenge; an exception from recovery or from `balanceOf` propagates unchanged; otherwise the reply is a redirect exactly when the recovered address's balance is positive |
| `TokenGate.GrantNeedsBalance` | assistantBot.py:79-88 | a successful call means both calls succeeded; a redirect, which carries only the session cookie and goes to `/gpt`, is given exactly when the signer's balance is positive; a denial is the fixed text |
| `TokenGate.DenialMeansNoBalance` | assistantBot.py:79-88 | a denial means both calls succeeded and the signer's balance is not positive; its body is the fixed text |
| `TokenGate.HttpResponse.Redirect` | assistantBot.py:82 | a fresh response with status 302, the target location and no cookies |
| `TokenGate.HttpResponse.SetCookie` | assistantBot.py:83-85 | appends exactly the given cookie and leaves status and location unchanged |
| `TokenGate.Authenticate` | assistantBot.py:74-88 | returns a freshly built response object or a string, and what it returns is exactly `AuthOutcome` of the same inputs |
| `SessionGuard.Get` | assistantBot.py:93 | `cookies.get(name)`: present exactly when the key is set, with its value |
| `SessionGuard.HasAuthToken` | assistantBot.py:92-94 | true exactly when the cookie map has the key `authToken` |
| `SessionGuard.AnyValueAccepted` | assistantBot.py:93-94 | any `authToken` value passes, the empty string included |
| `SessionGuard.OtherCookiesIrrelevant` | assistantBot.py:92-94 | adding or removing any other cookie does not change the verdict |
| `SessionGuard.GrantedClientPassesGuard` | assistantBot.py:83-94 | a client that stores the cookies of a granted authentication passes the guard and holds the issued token |
| `Text.Join` | assistantBot.py:145 | `sep.join(parts)`; its contract is carried by `Text.JoinPartAt`, `Text.JoinSeparatorAfter` and `Text.JoinLength` |
| `Text.JoinPartAt` | assistantBot.py:145 | in `sep.join(parts)`, part `i` appears verbatim at its offset, the lengths of the earlier parts each followed by one separator |
| `Text.JoinSeparatorAfter` | assistantBot.py:145 | in `sep.join(parts)`, exactly one separator follows each part except the last |
| `Text.JoinLength` | assistantBot.py:145 | `sep.join(parts)` of a non-empty list ends exactly where its last part ends: nothing follows the last part |
| `Prompt.Contexts` | assistantBot.py:142 | succeeds exactly when every match has a `text` entry; the result has one text per match, in match order; otherwise it raises `KeyError('text')` |
| `Prompt.AugmentedQuery` | assistantBot.py:144-149 | the augmented prompt; its contract is carried by `Prompt.Layout`, `Prompt.EndsWithSuffixAndHoldsQuestion`, `Prompt.NoContexts`, `Prompt.OneContext`, `Prompt.ContextInOrder` and `Prompt.QuestionDetermined` |
| `Prompt.Layout` | assistantBot.py:144-149 | the prompt is exactly the joined contexts, the divider, the question and the suffix, in that order, with nothing else |
| `Prompt.EndsWithSuffixAndHoldsQuestion` | assistantBot.py:144-149 | the prompt ends with the instruction suffix and contains the question verbatim |
| `Prompt.NoContexts` | assistantBot.py:145-148 | with no contexts the prompt is the divider, the question and the suffix, so it begins with the divider |
| `Prompt.OneContext` | assistantBot.py:145-148 | with one context the prompt is that context directly followed by the prompt without contexts, which starts with the divider, so no context separator is added |
| `Prompt.ContextInOrder` | assistantBot.py:144-146 | each context appears verbatim at its offset in match order; every context but the last is followed by exactly one separator, and the last by the question divider |
| `Prompt.QuestionDetermined` | assistantBot.py:144-149 | for the same contexts, two equal prompts have equal questions |
| `Prompt.EmbeddingCall` | assistantBot.py:136 | the embedding request: engine `text-embedding-ada-002`, input the one-element list holding `user_input` (`None` when missing); `Prompt.AskGpt` and `Prompt.AskGptSendsAugmentedPrompt` state what happens with its outcome |
| `Prompt.IndexCall` | assistantBot.py:140 | the index query: index `hc`, the embedding vector, `top_k` 5, metadata included; `Prompt.AskGptSendsAugmentedPrompt` states that its matches feed the prompt |
| `Prompt.ChatCall` | assistantBot.py:151-159 | the chat request: `gpt-3.5-turbo` at temperature 0.1, the system primer and then the augmented prompt as the user message; `Prompt.AskGptSendsAugmentedPrompt` states that the answer is the chat service's reply to it |
| `Prompt.AskGpt` | assistantBot.py:135-161 | an embedding failure propagates unchanged; after a successful embedding, an index failure propagates unchanged; after both succeed, a match without a text raises `KeyError('text')`; an answer is produced only for a present question |
| `Prompt.AskGptSendsAugmentedPrompt` | assistantBot.py:136-161 | when embedding and retrieval succeed and every match has a text, the result is the chat service's reply to the primer and the augmented prompt of the match texts in order |
| `Prompt.MissingQuestionRaises` | assistantBot.py:136-147 | without `user_input`, `ask_gpt` always raises; once the embedding and index calls succeed and every match has a text, what it raises is the `TypeError` of concatenating `None` to a string |
| `Text.Contains` | assistantBot.py:169 | `sub in s`: true exactly when `sub` occurs at some position of `s` |
| `LinkCheck.IsSpace` | assistantBot.py:165 | `\s` in a `str` pattern: the characters for which `str.isspace` holds; `LinkCheck.SpaceFrom`, `LinkCheck.MatchEndSound` and `LinkCheck.MatchEndComplete` state the pattern in its terms |
| `LinkCheck.MatchEnd` | assistantBot.py:165 | where the pattern's match at a position ends, after the position and within the text; `LinkCheck.MatchEndSound` and `LinkCheck.MatchEndComplete` state that this is exactly the pattern's match |
| `LinkCheck.SpaceFrom` | assistantBot.py:165 | the greedy `\S+` run: the first whitespace at or after a position, or the end, with no whitespace before it |
| `LinkCheck.MatchEndSound` | assistantBot.py:165 | a match at a position ends at a point satisfying the pattern: URL-shaped, and stopping only at whitespace or at the end |
| `LinkCheck.MatchEndComplete` | assistantBot.py:165 | wherever the pattern matches, the matcher finds that match |
| `LinkCheck.ScanWith` | assistantBot.py:166 | `findall`'s left-to-right, non-overlapping scan for any pattern; its contract is carried by `LinkCheck.ScanWithFacts`, `LinkCheck.ScanComplete`, `LinkCheck.ScanHasShape` and `LinkCheck.ScanUnique` |
| `LinkCheck.ScanWithFacts` | assistantBot.py:166 | every span the `findall` scan finds is the pattern's match at its own start, inside the scanned range, and the spans come in order without overlap |
| `LinkCheck.ScanComplete` | assistantBot.py:166 | the `findall` scan misses no matching position: each lies inside a found span |
| `LinkCheck.ScanHasShape` | assistantBot.py:166 | the scan has the full shape of `findall`'s result: matches at their starts, in order, without overlap, covering every matching position |
| `LinkCheck.ScanUnique` | assistantBot.py:166 | that shape determines the scan uniquely |
| `LinkCheck.Scan` | assistantBot.py:166 | the spans of `re.findall(r"https?://\S+", text)`: inside the text, in order and without overlap; `LinkCheck.ScanSound` and `LinkCheck.ScanCovers` state that they are exactly the pattern's matches |
| `LinkCheck.FindUrls` | assistantBot.py:166 | the matched substrings; `LinkCheck.NoMatchNoUrls`, `LinkCheck.FormattedUrlShape` and `LinkCheck.FindAll` state its contract |
| `LinkCheck.ScanSound` | assistantBot.py:166 | every found span is a match of `https?://\S+` |
| `LinkCheck.ScanCovers` | assistantBot.py:166 | every match of the pattern in the text starts inside a found span |
| `LinkCheck.NoMatchNoUrls` | assistantBot.py:166 | no URL is found exactly when the text has no URL-shaped substring |
| `LinkCheck.MatchAt` | assistantBot.py:165 | the loop that tries the pattern at one position ends exactly where `MatchEnd` says |
| `LinkCheck.FindAll` | assistantBot.py:166 | the loop that scans the text returns exactly `FindUrls` |
| `LinkCheck.RStrip` | assistantBot.py:167 | `rstrip('.')` returns a prefix that does not end in `.`, and everything removed is `.` |
| `LinkCheck.Formatted` | assistantBot.py:167 | `rstrip(".")` of each URL, in order; `LinkCheck.FormattedUrlShape` states the shape of what it yields |
| `LinkCheck.StrippedUrlShape` | assistantBot.py:167 | a stripped match still starts with a scheme, has no whitespace, and does not end in `.` |
| `LinkCheck.FormattedUrlShape` | assistantBot.py:165-167 | every checked URL starts with `http://` or `https://`, has no whitespace, does not end in `.`, is the text at its match's start, and comes in the answer's left-to-right order |
| `LinkCheck.Probe` | assistantBot.py:168-175 | the check loop as a value, with its verdict and the HEAD requests it sends; `LinkCheck.ProbeAllClear`, `LinkCheck.ProbeFirstFailure`, `LinkCheck.ProbePassedIff` and `LinkCheck.BlockedNeverProbed` state its contract |
| `LinkCheck.CheckText` | assistantBot.py:164-175 | `test_urls_from_response_okay` as a value; `LinkCheck.NoUrlPasses` and `LinkCheck.TestUrlsFromResponseOkay` state its contract |
| `LinkCheck.ProbeAllClear` | assistantBot.py:168-175 | when every URL clears, the check passes after one HEAD request per URL, in order |
| `LinkCheck.ProbeFirstFailure` | assistantBot.py:168-175 | the check fails at the first URL that does not clear, with that URL's exception, after HEAD requests for exactly the URLs before it and for that URL unless it is blocked |
| `LinkCheck.ProbePassedIff` | assistantBot.py:168-175 | the check passes exactly when every URL is unblocked and its HEAD request succeeds with a status other than 401, 403 and 404 |
| `LinkCheck.BlockedNeverProbed` | assistantBot.py:169-172 | no HEAD request is sent for a URL containing `academy` |
| `LinkCheck.BlockedDecidedWithoutHead` | assistantBot.py:169-170 | a blocked URL is rejected with `ValueError(url)` whatever HEAD would answer for it |
| `LinkCheck.NoUrlPasses` | assistantBot.py:164-175 | an answer without a URL-shaped substring passes and sends no request |
| `LinkCheck.CheckUrls` | assistantBot.py:168-175 | the check loop's verdict and its HEAD requests are exactly `Probe` |
| `LinkCheck.TestUrlsFromResponseOkay` | assistantBot.py:164-175 | the whole check's verdict and its HEAD requests are exactly `CheckText` |
| `Api.CatchValueError` | assistantBot.py:122-132 | an answer is returned as the output; a `ValueError` becomes the apology; any other exception is uncaught |
| `Api.GuardedAnswer` | assistantBot.py:122-128 | the body inside the `try`: with the link check off it is `ask_gpt`'s outcome; any answer is `ask_gpt`'s answer; with the check on, an answer goes through exactly when the link check passes, and a failing check raises the check's own exception |
| `Api.ReactDescription` | assistantBot.py:118-132 | the output is either the apology or the answer `ask_gpt` produced; an uncaught exception is never a `ValueError` |
| `Api.AnswerReturned` | assistantBot.py:124-128 | as shipped, a successful answer is returned unchanged |
| `Api.ValueErrorBecomesApology` | assistantBot.py:130-132 | a `ValueError` from answering becomes the apology |
| `Api.OtherErrorsUncaught` | assistantBot.py:122-132 | any other exception propagates out of the handler |
| `Api.MissingQuestionNoAnswer` | assistantBot.py:120-124 | a body without `user_input` never gets an answer |
| `Api.MissingTextUncaught` | assistantBot.py:122-143 | a retrieved match without a text makes the handler fail with the uncaught `KeyError('text')`, with or without the link check |
| `Api.CheckedAnswerReturned` | assistantBot.py:127-128 | with the link check enabled, an answer whose URLs all clear is returned |
| `Api.BlockedLinkBecomesApology` | assistantBot.py:127-132 | with the link check enabled, an answer is replaced by the apology when its first failing URL contains `academy` |
| `Api.RejectedStatusBecomesApology` | assistantBot.py:127-132 | with the link check enabled, an answer is replaced by the apology when its first failing URL gets 401, 403 or 404 |
| `Api.ProbeHeadErrorUncaught` | assistantBot.py:127-132 | with the link check enabled, a HEAD request that raises something other than `ValueError` at the first failing URL leaves the handler with that exception uncaught |
| `Api.CheckedAnswerIff` | assistantBot.py:127-132 | with the link check enabled, an answer other than the apology text is returned exactly when every URL in it clears |

## Left out

- Flask routing, template rendering and HTTP redirects as mechanics (`/`, `/auth`, `/gpt`, app start-up). A response is an abstract value: a status, a location and cookies, or a text body.
- Loading the environment and configuration, and initialising the web3, OpenAI, Pinecone and contract clients. These are start-up and global handles only.
- Signature recovery (`encode_defunct`, `recover_message` under EIP-191). It is a parameter from challenge and signature to an address or an exception. A missing `signature` query parameter, which `request.args.get` turns into `None`, is not represented: the signature is a string. A recovery parameter may raise for any input, so it covers that case.
- The `balanceOf` call. It is a parameter from address to balance or exception. `int(...)` of the result is taken as already done.
- The embedding, index and chat services. They are parameters from request to outcome.
- `Prompt.Contexts`: a match without a `metadata` entry, where `item["metadata"]` raises `KeyError('metadata')`, is not represented: a match always carries a metadata map. Nor is a `text` value that is not a string, where the join raises `TypeError`: metadata maps strings to strings.
- Extracting fields from the service responses (`res_embed["data"][0]["embedding"]` and `res["choices"][0]["message"]["content"]`). The parameters return the extracted value directly.
- The order of index matches by similarity, and the `top_k` bound. The index enforces those, not the program.
- `requests.head`. It is a parameter from URL to status or exception, so a URL that occurs twice in an answer gets the same answer both times, although the loop sends two requests whose answers may differ. The browser headers and the system primer come from the `data` module, which is not part of this model; the primer is a parameter.
- `uuid.uuid4()`. The token is an arbitrary string parameter.
- `ChatMessageHistory` and the `print` calls. They do not affect behaviour.
- Request bodies that are not JSON objects, and a `user_input` that is present but not a string. The question is a string or missing.
- `TokenGate.AuthOutcome`: a contract that reverts on `balanceOf` raises out of `authenticate`. The code does not turn it into a denial, so the model propagates the exception.
- `Prompt.AskGpt`: a missing `user_input` is still sent to the embedding service as `[None]`. The embedding call may itself raise. If the embedding and index calls succeed and every match has a text, `ask_gpt` fails at the string concatenation with `TypeError`. Either way it never returns a validation error of its own. The model follows the code.
- `Api.ReactDescription`: the call to the link check is commented out in the handler (line 127), so the code as shipped is `checkLinks = false`. The check's effect is modelled for `checkLinks = true`.
