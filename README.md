# Sentilytics core, modelled in Dafny

Sentilytics analyses the comments of a YouTube video. A browser extension reads
the video id from the current tab's URL and calls a Flask backend. The backend
fetches the comments, cleans each one, classifies it as positive, neutral or
negative, and answers with counts. Its dashboard route also returns chart data,
the most-liked comment per sentiment and insights generated by a language model.

This project models the deterministic parts of that pipeline and proves what
they promise:

- `CommentCleaner` and `HtmlUnescape`: the four-stage comment sanitiser
  `clean_comment`. Its stages remove `<…>` tags, remove `http`/`www` words,
  unescape HTML character references (numeric references as HTML5 defines
  them, named references from a small table) and collapse whitespace.
- `Frame`: the rows of the pandas data frame (`likecount`, `comment`,
  `sentiment`), `value_counts`, and `nlargest(1, 'likecount')`.
- `Insights`: the rest of `backend/utils.py`:
  - the pie-chart label, size, colour and explode lists;
  - the empty-data errors;
  - the post-processing of the classifier's reply;
  - the prompt truncation;
  - the cleaning and reshaping of the model's reply.
- `Routes`: the two routes of `backend/app.py`, `analyze_video` and
  `generateReportRoute` (here `Dashboard`), with their 200/404/500 answers.
- `VideoId`: a hand-written matcher equivalent to the regular expression of
  `getYouTubeVideoId`, and the URL host guard.
- `Popup`: the extension's three-entry bar table, a class over an array that
  `setSentimentBar` and `resetBars` update in place. Also the popup's
  status/button state and the click handler up to the backend request.
- `Results`, `Text` and `Json`: shared helpers. `Results` holds Option and
  Result. `Text` holds Python's whitespace class, substring tests and
  `' '.join`. `Json` holds a JSON value type.

Network calls are function parameters, each returning a `Result`:
- `download`: the comment fetch;
- `classify`: the Hugging Face classifier;
- `generate`: the Gemini call;
- `loads`: `json.loads`;
- `upload`: the chart upload.

An exception becomes an `Err` carrying its message. The `try`/`except` of each
route turns that message into a 500 reply.

The extension POSTs to a `/session` route (extension/popup.js:148-152), but
the backend defines only `/analyze/<video_id>` and `/dashboard/<video_id>`.
No session store exists in the code, so none is modelled.

## Model

| member | source | states |
|---|---|---|
| CommentCleaner.StripTagsIsTagFree | backend/utils.py:79 | after tag removal no `<` is followed by a `>` on the same line, even where a deletion brings a new `<…>` together |
| CommentCleaner.StripTagsIdentityIffTagFree | backend/utils.py:79 | tag removal leaves a text unchanged exactly when the text holds no single-line `<…>` |
| CommentCleaner.StripTagsIdempotent | backend/utils.py:79 | removing tags twice gives the same text as removing them once |
| CommentCleaner.TagDeletedShortest | backend/utils.py:79 | a `<` followed by characters free of `>` and newline and then a `>` is deleted up to that first `>` (the lazy `.*?`) |
| CommentCleaner.StripTagsCopiesOpenLine | backend/utils.py:79 | a line fragment with no `>` before its newline is copied unchanged together with the newline |
| CommentCleaner.TagAcrossLinesSurvives | backend/utils.py:79 | a `<` whose `>` lies beyond a newline is kept, because `.` does not match a newline |
| CommentCleaner.HttpsSubsumed | backend/utils.py:82 | wherever the `https` alternative matches, the `http` alternative matches first, on a longer word |
| CommentCleaner.StripLinksIsLinkFree | backend/utils.py:82 | after link removal no position starts a word with a link prefix followed by a non-space character |
| CommentCleaner.StripLinksIdentityIffLinkFree | backend/utils.py:82 | link removal leaves a text unchanged exactly when the text holds no link word |
| CommentCleaner.LinkDeletedUpToSpace | backend/utils.py:82 | a link word is deleted up to, and not including, the next whitespace character |
| CommentCleaner.CollapseSpacesSingleSpaced | backend/utils.py:88 | after `\s+` → `' '` no whitespace character other than a single space remains and no two spaces are adjacent |
| CommentCleaner.CollapseSpacesKeepsInk | backend/utils.py:88 | collapsing keeps every non-whitespace character, in order |
| CommentCleaner.CollapseSpacesOnSingleSpaced | backend/utils.py:88 | collapsing changes nothing in an already single-spaced text |
| CommentCleaner.StripKeepsInk | backend/utils.py:88 | `strip` removes only whitespace |
| CommentCleaner.StripShape | backend/utils.py:88 | the stripped text neither starts nor ends with whitespace and stays single-spaced |
| CommentCleaner.Words | backend/utils.py:88 | `str.split()`, the reference for stage 4: the maximal whitespace-free runs, each non-empty and free of whitespace |
| CommentCleaner.CollapseSpacesWords | backend/utils.py:88 | a text not starting with whitespace collapses to its words joined by single spaces, plus one space when it ends in whitespace |
| CommentCleaner.NormalizeSpacesIsJoinedWords | backend/utils.py:88 | stage 4 equals `' '.join(s.split())`: every whitespace run between two words becomes exactly one space, the runs at either end vanish |
| CommentCleaner.NormalizeSpacesProperties | backend/utils.py:88 | stage 4 output is trimmed and single-spaced, keeps every non-whitespace character in order, and is the words of the input joined by one space each |
| CommentCleaner.NormalizeSpacesIdentityIffNormalized | backend/utils.py:88 | stage 4 leaves a text unchanged exactly when it is already trimmed and single-spaced |
| CommentCleaner.CleanCommentNormalized | backend/utils.py:77-90 | every cleaned comment is trimmed and has no whitespace run; it is the words of the unescaped, tag- and link-free text joined by single spaces |
| CommentCleaner.CleanCommentFixedPoint | backend/utils.py:77-90 | a tag-free, link-free, `&`-free and normalized comment is returned unchanged; a comment returned unchanged is normalized |
| CommentCleaner.CleanCommentUnchanged | backend/utils.py:79-88 | a comment with no `<`, no `&`, no `http`/`www` substring that is already trimmed and single-spaced is returned unchanged |
| CommentCleaner.EscapeKeepsLinkFree | backend/utils.py:82-85 | HTML-escaping a link-free text adds no link: character references hold neither `h` nor `w`, and a link in the escaped text is a link in the text |
| CommentCleaner.EscapedTextSurvives | backend/utils.py:79-88 | for every normalized, link-free text, the sanitiser applied to its HTML-escaped form returns the text itself, `<` and `>` included: stage 1 sees no tag because unescaping comes later |
| CommentCleaner.EscapedPlainTextSurvives | backend/utils.py:79-88 | the same for every normalized text without the substrings `http` and `www` |
| CommentCleaner.EscapedTagSurvives | backend/utils.py:79-85 | the instance `&lt;b&gt;`, which comes out as `<b>` |
| HtmlUnescape.UnescapeWithoutAmpersand | backend/utils.py:85 | a text with no `&` is unescaped to itself |
| HtmlUnescape.UnescapeNeverLonger | backend/utils.py:85 | unescaping never lengthens a text |
| HtmlUnescape.UnescapeNamed | backend/utils.py:84-85 | `&amp;`, `&lt;`, `&gt;` and `&quot;` become `&`, `<`, `>` and `"` |
| HtmlUnescape.UnescapeDecimalApostrophe | backend/utils.py:84-85 | `&#39;` becomes `'` |
| HtmlUnescape.UnescapeApostrophe | backend/utils.py:85 | `&#x27;` becomes `'` |
| HtmlUnescape.UnescapeEscape | backend/utils.py:85 | unescaping inverts HTML escaping of `&`, `<`, `>`, `"` and `'` |
| Frame.CountZeroIffAbsent | backend/app.py:33-37 | a label's count is 0 exactly when no row carries it |
| Frame.CountAppend | backend/app.py:33 | appending one label adds one to that label's count and nothing to any other |
| Frame.CountConcat | backend/app.py:33 | counts add up over concatenated label lists |
| Frame.ValueCounts | backend/app.py:33 | the keys are exactly the labels that occur, and each value is that label's number of rows |
| Frame.CountOf | backend/app.py:35-37 | `value_counts().get(k, 0)` is the number of rows labelled `k`, 0 for an absent label |
| Frame.MostLiked | backend/app.py:82-84 | no index exactly when no row has the label; otherwise the chosen row has the label and the largest like count, and every earlier row with the label strictly fewer likes (pandas keeps the first of ties) |
| Frame.TopLiked | backend/app.py:82-84 | at most one row; empty exactly when no row has the label; otherwise a row of the input with the label and the largest like count |
| Insights.PieLabels | backend/utils.py:116-117 | a sentiment is a label exactly when it is one of positive, neutral, negative and occurs; labels keep that order |
| Insights.Pie | backend/utils.py:116-121 | sizes, colours and explode values are parallel to the labels; each size is its label's positive count, each colour comes from the colour map, explode is 0.1 only at positive |
| Insights.Sizes | backend/utils.py:118 | one count per label, each as `value_counts().get` gives it |
| Insights.PieSizesSum | backend/utils.py:117-118 | the pie sizes add up to the three sentiment counts |
| Insights.PieSizesCoverRows | backend/utils.py:117-118 | when every row carries one of the three sentiments, the pie sizes add up to the number of rows |
| Insights.ThreeCountsCover | backend/app.py:69-78 | when every row carries one of the three labels, the three counts add up to the number of rows |
| Insights.ThreeCountsAtMost | backend/app.py:69-78 | the three counts add up to at most the number of rows |
| Insights.GenerateGraphs | backend/utils.py:92-121 | fails with "Data is empty, cannot generate graphs." exactly on empty data; otherwise yields the pie lists |
| Text.LowerAscii | backend/utils.py:162 | same length; each ASCII upper-case letter becomes its lower-case counterpart, every other character is kept |
| Insights.PredictSentiment | backend/utils.py:158-165 | a classifier failure becomes "Error predicting sentiment: " plus its message; an empty reply gives `neutral`; otherwise the first label with each ASCII upper-case letter replaced by its lower-case counterpart and every other character kept |
| Insights.PredictSentimentLowerCase | backend/utils.py:161-163 | a first label that is already lower case is returned unchanged |
| Insights.Truncate | backend/utils.py:172-174 | at most 8003 characters; unchanged up to 8000; otherwise the first 8000 characters followed by `...` |
| Insights.TruncateIdempotent | backend/utils.py:172-174 | truncating twice gives the same text as truncating once, for every text |
| Insights.CommentsText | backend/utils.py:171-174 | the prompt text is the space-joined comments when they are at most 8000 characters, and otherwise their first 8000 characters followed by `...` |
| Insights.RemoveFencesKeepsPlainPrefix | backend/utils.py:205 | removing the triple backticks keeps a prefix that holds no backtick |
| Insights.FencedReplyBody | backend/utils.py:205 | for a reply "```json" + t + "```" with no backtick in t, the text handed to the JSON parser is t |
| Json.GetOrEmpty | backend/utils.py:208-214 | `dict.get(key, [])`: the member when present, otherwise an empty array |
| Insights.Reshape | backend/utils.py:206-218 | an object with `Question` gives exactly the keys Questions and Suggestions, any other object exactly Engagement and Suggestions, missing members defaulting to `[]`; a non-object fails with the "Error generating insights: " prefix |
| Insights.GenerateInsights | backend/utils.py:167-218 | empty data fails with "No comments Found, cannot generate insights."; a failing model call propagates its error; a failing parse gets the "Error generating insights: " prefix; a success has one of the two key sets |
| Routes.FetchComments | backend/utils.py:73-74 | a failing download is reported as "Error fetching comments: " plus its message |
| Routes.Classify | backend/app.py:30-31 | on success one row per comment, likes kept, comment cleaned, sentiment predicted from the cleaned comment; fails exactly when some comment's prediction fails |
| Routes.ClassifyReportsFirstFailure | backend/app.py:30-31 | the error reported is that of the first comment whose prediction fails |
| Routes.SentimentCounts | backend/app.py:33-38 | the keys are exactly positive, negative and neutral, and each value counts the rows with that label |
| Routes.SentimentCountsAtMostTotal | backend/app.py:69-78 | labels other than the three are counted nowhere: the three counts add up to at most `totalComments` |
| Routes.AnalyzeVideo | backend/app.py:20-44 | returns a fetch error as 500; no comments as 404 "No comments found for this video."; a classification error as 500; otherwise 200 with the three counts |
| Routes.AnalyzeVideoStatus | backend/app.py:26-44 | the status is 200, 404 or 500; 404 exactly on an empty download; 200 exactly when the download and every prediction succeed |
| Routes.AnalyzeVideoCountsCoverComments | backend/app.py:33-41 | when the classifier only answers the three labels, the counts add up to the number of comments |
| Routes.TopLikedComments | backend/app.py:81-85 | exactly the three sentiment keys, each with the most-liked row of that sentiment |
| Routes.DashboardAsWritten | backend/app.py:47-90 | the route as written: after classification it always answers 500 with "name 'TOKEN' is not defined" |
| Routes.DashboardAsWrittenNeverSucceeds | backend/app.py:61 | the route as written never answers 200 |
| Routes.DashboardAsWrittenFailsOnOneComment | backend/app.py:61 | one comment the classifier calls POSITIVE already gets the 500 |
| Routes.Dashboard | backend/app.py:47-90 | the corrected route: a fetch error, a classification error, an upload error or an insight error each gives a 500 carrying its message; no comments give the 404; when every stage succeeds it answers 200 with `totalComments` equal to the number of fetched comments, the three counts, the uploaded chart URLs, the most-liked rows and the insights |
| Routes.DashboardAgreesWithAnalyze | backend/app.py:69-74 | a successful dashboard reports the same counts as the analyse route |
| Routes.DashboardFailsLikeAnalyze | backend/app.py:53-58 | the dashboard's 404, and its fetch and classification errors, coincide with the analyse route's |
| VideoId.IdAt | extension/popup.js:37 | yields the 11 characters at a position exactly when all are in `[A-Za-z0-9_-]` |
| VideoId.AmpTryFinds | extension/popup.js:37 | the greedy `(?:.*&)?` finds an id exactly when some `&` in range is followed by `v=` and an id, and then takes the last such `&`: every later `&` is not followed by `v=` and an id |
| VideoId.GetVideoId | extension/popup.js:35-43 | the result is null or 11 characters of `[A-Za-z0-9_-]`; an id is found only where `youtube.com/` or `youtu.be/` occurs |
| VideoId.GetVideoIdTaken | extension/popup.js:37-39 | the id returned occurs in the address |
| VideoId.ExtractedPassesGuard | extension/popup.js:37-39 | every URL that yields an id passes the host guard |
| VideoId.NoHostNoId | extension/popup.js:37-39 | a URL containing neither `youtube.com` nor `youtu.be` yields null |
| VideoId.DirectForms | extension/popup.js:37 | `youtu.be/ID`, `youtube.com/embed/ID` and `youtube.com/v/ID`, with or without `http(s)://` and `www.`, yield ID whatever follows |
| VideoId.WatchForm | extension/popup.js:37 | `youtube.com/watch?v=ID`, with either prefix, yields ID when no `&` follows |
| VideoId.WatchAfterParams | extension/popup.js:37 | `youtube.com/watch?query&v=ID`, with a single-line query, yields ID when no `&` follows |
| Popup.ParseDecimalInverse | extension/popup.js:49-51 | the decimal text of an integer reads back as that integer |
| Popup.Percent | extension/popup.js:49-51 | `percent + '%'` ends in `%` and, without it, reads back as the number |
| Popup.SentimentTable.constructor | extension/popup.js:9-28 | the table holds positive, neutral and negative, in that order |
| Popup.SentimentTable.Find | extension/popup.js:47 | -1 exactly when no entry has the key, otherwise the index of the first entry with it |
| Popup.SentimentTable.FindsTheOnlyEntry | extension/popup.js:9-28 | in the table each key occurs once |
| Popup.SentimentTable.SetSentimentBar | extension/popup.js:46-52 | the entry with the key gets width, value and tooltip `p%`; the other entries are unchanged; an unknown key changes nothing |
| Popup.SentimentTable.ResetBars | extension/popup.js:54-60 | every entry's width, value and tooltip become `0%`, keys kept |
| Popup.PopupView.ShowLoading | extension/popup.js:62-66 | status "Analyzing...", shown, button disabled |
| Popup.PopupView.HideLoading | extension/popup.js:68-72 | status empty, hidden, button enabled |
| Popup.PopupView.ShowInitial | extension/popup.js:79-84 | results hidden, loading hidden, bars reset |
| Popup.PopupView.StartAnalysis | extension/popup.js:101-125 | bars reset; outside the host guard "Please open a YouTube video."; no id "Invalid YouTube URL or missing video ID."; both re-enable the button and send nothing; otherwise the request goes to `BACKEND_URL/dashboard/ID` with the button disabled |

## Left out

- Comment fetching (backend/utils.py:39-72): paging over the YouTube API is network I/O. The fetch is the `download` parameter; only its error wrapper is modelled.
- The Hugging Face classifier (backend/utils.py:160) and the Gemini call (backend/utils.py:201-202) are foreign services: they are the `classify` and `generate` parameters. The fixed instruction text around the comments in the prompt is not modelled.
- `json.loads` is the `loads` parameter. JSON numbers are modelled as integers.
- Chart rendering and upload (backend/utils.py:98-154): matplotlib, WordCloud, the bar chart's floating-point means and the blob upload are foreign libraries and HTTP. The upload is the `upload` parameter and receives the pie lists.
- Insights.Reshape: for a reply that parses to something other than an object, Python's exact `TypeError`/`AttributeError` text is replaced by a fixed description.
- Insights.PredictSentiment: lower-cases ASCII letters only; Python's `str.lower` folds all of Unicode.
- Insights.GenerateInsights: `generate` stands for both `generate_content` (backend/utils.py:202) and the read of `response.text` (backend/utils.py:205). Its error propagates without a prefix. In the source, a failing `response.text` sits inside the `try` at line 204 and so gets the "Error generating insights: " prefix; the model does not capture that case.
- Routes.Dashboard: `upload` receives only the pie lists. The WordCloud failure on comment text with no words (backend/utils.py:138) depends on the comments, so the model cannot produce it from those lists; any upload failure is still answered as a 500.
- HtmlUnescape.Unescape: named references come from a small table (amp, lt, gt, quot, apos, nbsp and their legacy forms) instead of the full HTML5 list. HtmlUnescape.NumericText states only that it yields at most one character.
- Popup.Decimal: writes integers only; JavaScript's exponent notation for very large numbers and fractional percentages are not modelled.
- The percentage arithmetic `Math.round((count/total)*100)` (extension/popup.js:132-137) and frontend/script.js's `toFixed(1)` are floating point. The percentage is an integer parameter of `SetSentimentBar`.
- The popup after the backend request (extension/popup.js:126-198): response handling, session creation and links are DOM and network work.
- frontend/script.js fills a web page from the report and has nothing to prove.
- The session store: no file implements it.
- Flask/CORS set-up, logging `print`s and the Chrome tabs query are not modelled. The tab's URL is a parameter.
- The `try`/`catch` of `getYouTubeVideoId` cannot fire on a string argument, so it has no counterpart.
- The bars are created with DOM elements; the model keeps only their key, width, value and tooltip text.
- `if not data.empty else None` at backend/app.py:61 is unreachable after the check at line 53, so graphs are always generated.

## Findings

| source | as written | input that shows it | evidently intended | confidence | as-written member | corrected member |
|---|---|---|---|---|---|---|
| backend/app.py:61 | `generateGraphs(data, video_id, TOKEN, STORE_ID)`: neither name is defined in app.py, and `generateGraphs` takes two parameters | a video with one comment that the classifier labels POSITIVE: the route answers 500 "name 'TOKEN' is not defined" | call `generateGraphs(data, video_id)` and return the report | high; not executed | Routes.DashboardAsWrittenFailsOnOneComment | Routes.Dashboard |
