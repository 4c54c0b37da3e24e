# Rogue Paradigm site scripts, modelled in Dafny

A Dafny model of the two client-side scripts of the Rogue Paradigm static site.

- **Contact-link revealer** (`assets/js/main.js`, module `ContactLink`). When the page is parsed, the handler looks up the element with id `contactLink`. It trims that element's `data-user` and `data-domain` attributes. If either value is missing, empty or still its placeholder (`REPLACE_USER`, `REPLACE_DOMAIN`), the element is hidden. Otherwise the element gets the link `mailto:user@domain` and the label `Email: user@domain`. The decision is the pure function `Decide`. `OnContentLoaded` writes that decision onto a `ContactElement` object. The `getElementById` lookup becomes a nullable reference.
- **`String.prototype.trim`** (module `JsString`), as the revealer uses it. It strips the ECMAScript WhiteSpace and LineTerminator code points from both ends. These are TAB, LF, VT, FF, CR, ZWNBSP, the Unicode category Zs, LS and PS.
- **Plugin-list controller** (`assets/js/plugins-list.js`, module `PluginsList`). The `.plugin-item` elements are numbered in document order. Their `expanded` classes are an `array<bool>` in class `PluginList`. A header click inside a link or button does nothing. Any other header click collapses every other item and toggles the clicked one. On load, the first item is expanded, and so is the plugin item that the URL hash names. Each mutating method is proved against a function on the flag sequence (`AfterClick`, `WithFirstExpanded`, `WithTargetExpanded`, `AfterLoad`). The lemmas about those functions state the list's invariant:
  - after any click outside links and buttons, at most one item is expanded;
  - if exactly one is expanded, it is the clicked item;
  - before the first click, two items can be expanded.

## Model

| member | source | states |
|---|---|---|
| `JsString.IsWhitespace` | assets/js/main.js:7-8 | holds exactly for U+0009–U+000D, U+0020, U+00A0, U+1680, U+2000–U+200A, U+2028, U+2029, U+202F, U+205F, U+3000 and U+FEFF: the code points `trim()` strips |
| `JsString.IsWideWhitespace` | assets/js/main.js:7-8 | the whitespace code points outside ASCII, all of which lie between U+00A0 and U+FEFF |
| `JsString.TrimStart` | assets/js/main.js:7-8 | the result is a suffix of the input, what it drops is all whitespace, and it does not start with whitespace |
| `JsString.TrimEnd` | assets/js/main.js:7-8 | the result is a prefix of the input, what it drops is all whitespace, and it does not end with whitespace |
| `JsString.Trim` | assets/js/main.js:7-8 | `trim()` never returns a string with whitespace at either end and never lengthens its input |
| `JsString.TrimSplits` | assets/js/main.js:7-8 | every string is its trim with a whitespace-only head and tail around it |
| `JsString.TrimPadded` | assets/js/main.js:7-8 | a trimmed string with whitespace on both sides trims back to exactly itself |
| `JsString.TrimIgnoresPadding` | assets/js/main.js:7-8 | adding whitespace around any string does not change its trim |
| `JsString.TrimFixedPoints` | assets/js/main.js:7-8 | `trim` leaves a string unchanged if and only if it has no whitespace at either end |
| `JsString.TrimIdempotent` | assets/js/main.js:7-8 | trimming twice equals trimming once |
| `JsString.TrimEmptyIff` | assets/js/main.js:7-10 | a value trims to the empty string (so counts as missing) if and only if it is all whitespace |
| `JsString.AsciiWhitespace` | assets/js/main.js:7-8 | among printable ASCII characters, only the space is whitespace |
| `ContactLink.ReadAttribute` | assets/js/main.js:7-8 | `getAttribute(...)?.trim()`: an absent attribute stays absent, a present one becomes exactly `Trim` of the raw value (which `TrimSplits` and `TrimPadded` pin down as the raw value minus its leading and trailing whitespace), so it has no whitespace at either end and is no longer than the raw value |
| `ContactLink.Truthy` | assets/js/main.js:10 | the only falsy optional strings are the absent value and the empty string |
| `ContactLink.IsConfigured` | assets/js/main.js:10 | the guard fails if and only if the user is absent, empty or `REPLACE_USER`, or the domain is absent, empty or `REPLACE_DOMAIN` |
| `ContactLink.Address` | assets/js/main.js:15 | `${user}@${domain}` is the user, one `@` and the domain, so both parts can be read back at their positions |
| `ContactLink.Decide` | assets/js/main.js:7-17 | hide if and only if an attribute is absent, or trims to empty, or trims to its placeholder; otherwise the href is `mailto:` plus the trimmed user, `@` and the trimmed domain, and the label is `Email: ` plus the same address |
| `ContactLink.ShownAddressAgrees` | assets/js/main.js:15-17 | when the link is shown, href and aria-label carry the same address after their `mailto:` and `Email: ` prefixes, and that address has no whitespace at either end |
| `ContactLink.DecideIgnoresPadding` | assets/js/main.js:7-10 | whitespace around either attribute value never changes the outcome |
| `ContactLink.DecideConfigured` | assets/js/main.js:10-17 | trimmed, non-empty, non-placeholder values are linked exactly as given |
| `ContactLink.ExampleConfigured` | assets/js/main.js:15-17 | `jane` at `example.com` gives `mailto:jane@example.com` and `Email: jane@example.com` |
| `ContactLink.ExamplePaddedPlaceholder` | assets/js/main.js:7-12 | a user attribute `" REPLACE_USER "` counts as the placeholder: the element is hidden, whatever the domain |
| `ContactLink.ExampleBlankDomain` | assets/js/main.js:8-12 | a whitespace-only domain counts as missing: the element is hidden, whatever the user |
| `ContactLink.ContactElement.constructor` | assets/js/main.js:4 | the element found on the page, with its attributes and its current display, href and label |
| `ContactLink.OnContentLoaded` | assets/js/main.js:3-18 | no element means no effect; on hide, only `hidden` changes and href and label are untouched; on show, href and aria-label are set to `Decide`'s strings and `hidden` is untouched |
| `PluginsList.ExpandedCount` | assets/js/plugins-list.js:15-22 | the number of expanded items is at most the number of items, and is zero if and only if no item is expanded |
| `PluginsList.AtMostOneIffCount` | assets/js/plugins-list.js:15-22 | "no two items expanded at once" holds if and only if the expanded count is at most one |
| `PluginsList.CloseOthers` | assets/js/plugins-list.js:15-19 | the loop collapses every item except the clicked one, which it leaves as it was |
| `PluginsList.Toggle` | assets/js/plugins-list.js:22 | `classList.toggle('expanded')` negates the clicked item's flag and leaves every other flag as it was |
| `PluginsList.AfterClick` | assets/js/plugins-list.js:8-23 | a click inside a link or button changes no flag; any other click negates the clicked item's flag and collapses every other item; the number of items never changes |
| `PluginsList.ClickLeavesAtMostOne` | assets/js/plugins-list.js:15-22 | after a click outside links and buttons, at most one item is expanded; exactly one is expanded if and only if the clicked item was collapsed before; that one is the clicked item |
| `PluginsList.ClickPreservesAtMostOne` | assets/js/plugins-list.js:10-22 | every click, inside a link or not, keeps "at most one expanded" once it holds |
| `PluginsList.ClickTwiceRestores` | assets/js/plugins-list.js:15-22 | clicking the same header twice restores the flags if and only if no other item was expanded before |
| `PluginsList.AfterClicks` | assets/js/plugins-list.js:8-23 | a sequence of header clicks never changes the number of items |
| `PluginsList.ClicksKeepAtMostOne` | assets/js/plugins-list.js:8-23 | once any click outside links and buttons has happened, at most one item is expanded from then on, whatever the state after load |
| `PluginsList.WithFirstExpanded` | assets/js/plugins-list.js:27-29 | with at least one item, item 0 becomes expanded and the others keep their flags; with no items, nothing changes |
| `PluginsList.HashTarget` | assets/js/plugins-list.js:32-35 | the hash names an item if and only if it is non-empty and finds an element with the `plugin-item` class; the item is the one found |
| `PluginsList.WithTargetExpanded` | assets/js/plugins-list.js:35-36 | the hash target becomes expanded and every other flag is unchanged; with no target, nothing changes |
| `PluginsList.AfterLoad` | assets/js/plugins-list.js:26-39 | after load, item 0 (if any) and the hash target (if any) are expanded, no item is collapsed, and every other item keeps its flag |
| `PluginsList.LoadExpandsAtMostTwo` | assets/js/plugins-list.js:26-39 | load raises the expanded count by at most two |
| `PluginsList.LoadCanExpandTwo` | assets/js/plugins-list.js:27-36 | on a collapsed page whose hash names an item other than the first, load leaves exactly two items expanded, so "at most one" does not hold before the first click |
| `PluginsList.PluginList.constructor` | assets/js/plugins-list.js:3 | the list holds the items' flags as the markup gives them, in document order |
| `PluginsList.PluginList.Click` | assets/js/plugins-list.js:8-23 | the click listener leaves the array equal to `AfterClick` of its old contents |
| `PluginsList.PluginList.ExpandFirst` | assets/js/plugins-list.js:27-29 | the array becomes `WithFirstExpanded` of its old contents |
| `PluginsList.PluginList.OpenHashTarget` | assets/js/plugins-list.js:32-39 | returns the item scrolled into view (the hash target, if any) and expands it; no other flag changes |
| `PluginsList.PluginList.Load` | assets/js/plugins-list.js:26-39 | the load-time steps leave the array equal to `AfterLoad` of its old contents and report the item scrolled into view |

## Left out

- Event registration (`addEventListener` for `DOMContentLoaded` and for `click`) is browser plumbing. Each handler is a method that is called directly.
- `Element.closest('a') || closest('button')` is a DOM ancestor search. It becomes the boolean `onLinkOrButton` of a `HeaderClick`.
- `document.querySelectorAll` and `querySelector('.plugin-header')` are DOM lookups. Items are numbered 0 to n-1 in document order.
- Every item is assumed to have a `.plugin-header`. In the browser, an item without one makes `header.addEventListener` throw. That would stop the load handler before the first item and the hash target are expanded. The model does not include that failure.
- `document.querySelector(hash)` is a map from selector to what it finds: a plugin item by number, or another element. CSS selector parsing is not modelled. In particular, a hash that is not a valid selector makes the browser throw. The model does not include that exception.
- `window.location.hash` is a string parameter. The empty string stands for "no hash".
- `scrollIntoView({ behavior: 'smooth', block: 'center' })` is a visual effect. `OpenHashTarget` and `Load` return the item that would be scrolled into view, and nothing more.
- The comment on line 14 of plugins-list.js calls the collapse loop optional ("comment out for multi-expand"). The shipped code always runs it, so the model always collapses the other items. There is no multi-expand mode.
- `getElementById('contactLink')` becomes a nullable `ContactElement` reference. `getAttribute` becomes an optional string attribute of that element.
- `style.display = 'none'` is the boolean `hidden`. No other CSS is modelled. On the show path the handler does not touch the display. So the element is visible afterwards only if it was visible before.
- `JsString.IsWhitespace` follows the Zs category of current Unicode versions. A future Unicode version could add code points to Zs.
- JavaScript strings are sequences of UTF-16 code units and can hold lone surrogates. A Dafny `string` is a sequence of Unicode scalar values, so such attribute values and hashes are outside the model's domain. No whitespace code point is a surrogate, so `trim` and `===` would treat them the same way.
- Attribute values are not decoded in any way: `main.js` uses the trimmed strings as they are, so the model has no "undecodable" case.
