# emu: endpoint resolution and configuration sets

`emu` is a demo Web Processing Service (WPS) built on pywps and werkzeug.
Almost all of it hands work to those libraries. This project models the two
pieces of its own logic in Dafny:

- **Endpoint resolution** (`emu/cli.py`). `get_host` reads the configured
  `server.url` and falls back to `http://localhost:5000/wps` when the value
  is absent or empty. It takes the URL's network location, the authority
  of section 3.2 of RFC 3986, as `urllib.parse.urlparse` extracts it. It
  splits that on `:` into a host and an integer port, and uses port 80
  when there is no colon. The `start` command builds a configuration list
  with zero or one entries. In the worker thread's `inner`, a non-empty
  `--bind-host` then replaces the parsed host, while the port always comes
  from the URL.
- **Configuration-set assembly** (`emu/wsgi.py`). `create_app` builds a
  fresh list that starts with the package's `default.cfg`. It then extends
  that list in place with the caller's paths.

Module layout:

- `Results`: `Option` and `Result`, for Python's `None` and exceptions.
- `Text`: Python's `str.find`, `str.split(':')` and `int()`, with their
  round trips (`split`/`join`, `int`/`str`).
- `UrlSplit`: how `urlsplit` extracts the network location.
- `PosixPath`: `os.path.dirname` and `os.path.join`.
- `Lists`: a Python list as a class whose `items` field `append` and
  `extend` change in place.
- `Cli`: `get_host`, `inner` and `start`.
- `Wsgi`: the configuration list of `create_app`.

Each `get_host` failure the model covers is an error value of `Cli.HostError`:

- `BadUrl`: `urlsplit` rejects a network location with square brackets
  that do not pair up.
- `UnpackMismatch`: the two-name unpack on line 31 fails because there is
  more than one colon.
- `InvalidPort`: `int()` on line 32 rejects the port text.

A URL that `urlsplit` rejects only through its bracketed-host check or its
Unicode normalisation check, both left out below, is not rejected with
`BadUrl`. The model goes on to split its network location. So
`http://[abc]:80/wps` yields host `[abc]`, port 80, `http://[abc]:x/wps`
yields `InvalidPort` and `http://[abc]:1:2/` yields `UnpackMismatch`. In
each of these cases `get_host` raises `ValueError` inside `urlparse`.

The configured URL and the configured output path are inputs to the model,
standing in for `configuration.get_config_value`. The path of the
`emu/wsgi.py` module file is an input too, standing in for `__file__`.
`CreateApp` returns the list that it passes to `Service`.

Notable behaviour of the code as written:

- `start` calls `get_host` inside a daemon thread. A parse failure ends
  only that thread. The watchdog still starts with the same list.
  `Cli.Start` returns that list whatever the endpoint's outcome.
- `inner` is called with two arguments, so `daemon` is always false there.
  As a result, `use_evalex` is always true.
- `start` passes its list to `make_app` in `emu/application.py`. That
  function does not prepend `default.cfg`; only `create_app` does.
- This `cli.py` has no PID file, fork, `stop` or `status`. The
  `PID_FILE` constant at line 18 is never used. Nothing of that is
  modelled.

## Model

| member | source | states |
|---|---|---|
| `Cli.ServiceUrl` | emu/cli.py:24-25 | a non-empty configured URL is used as is; an absent or empty one is replaced by `http://localhost:5000/wps` |
| `Cli.HostPort` | emu/cli.py:30-36 | the split can only fail when the network location contains a colon |
| `Cli.HostPortNoColon` | emu/cli.py:33-35 | with no colon the host is the whole network location and the port is 80 |
| `Cli.HostPortOneColon` | emu/cli.py:30-32 | with exactly one colon the host is the text before it and the port is the integer after it; non-integer port text gives `InvalidPort` |
| `Cli.HostPortManyColons` | emu/cli.py:31 | two or more colons always give `UnpackMismatch`, with the number of pieces the split produced |
| `Cli.HostPortAnyPort` | emu/cli.py:32 | every integer within `int()`'s 4300-digit limit, negative or above 65535, comes back unchanged as the port: there is no range check |
| `Cli.HostPortSound` | emu/cli.py:30-36 | conversely, every successful split is one of the two shapes: no colon and port 80, or host, one colon and an integer literal |
| `Cli.GetHost` | emu/cli.py:23-36 | a returned host never contains a colon; an error other than `BadUrl` comes only from a network location that `urlparse` accepted and that contains a colon; the lemmas `Cli.GetHost*` below state its results on whole classes of URLs and on concrete ones |
| `Cli.GetHostUnset` | emu/cli.py:23-36 | an absent configured URL yields host `localhost`, port 5000 |
| `Cli.GetHostEmptyUrl` | emu/cli.py:25-36 | an empty configured URL is treated like an absent one and yields host `localhost`, port 5000 |
| `Cli.GetHostSimpleUrl` | emu/cli.py:29-36 | for `scheme://authority` followed by a path, query or fragment, the endpoint is the host/port split of `authority`, whatever the scheme |
| `Cli.GetHostHttpsWithoutPort` | emu/cli.py:33-35 | `https://example.org/wps` yields `example.org` on port 80 |
| `Cli.GetHostUserinfoFails` | emu/cli.py:31 | user information with a password (`user:pw@host:8080`) fails the unpack, with 3 pieces |
| `Cli.GetHostIPv6Fails` | emu/cli.py:31 | a bracketed IPv6 host (`[::1]:5000`) fails the unpack, with 4 pieces |
| `Cli.GetHostUnpairedBracketFails` | emu/cli.py:29 | `http://[::1:5000/wps`, with an opening bracket and no closing one, fails inside `urlparse` as an invalid IPv6 URL |
| `Cli.GetHostEmptyPortFails` | emu/cli.py:32 | `localhost:` fails at the integer conversion of the empty text |
| `Cli.GetHostNonNumericPortFails` | emu/cli.py:32 | `localhost:abc` fails at the integer conversion |
| `Cli.GetHostPortOutOfRange` | emu/cli.py:32 | `localhost:99999` yields port 99999 unchanged |
| `Cli.Serve` | emu/cli.py:64-81 | fails exactly when `get_host` fails, with its error; otherwise the port is the parsed one, the hostname is the bind host when that is non-empty and the parsed host when it is not, the server is threaded with no debugger and no reloader, `use_evalex` is the negation of `daemon`, and `/outputs` maps to the output path |
| `Cli.Start` | emu/cli.py:55-94 | the list is empty without a `--config` value and exactly `[config]` with one, and the watchdog gets the same list; the listener follows `get_host` and picks the bind host as `Serve` does, threaded, with no debugger, no reloader and `use_evalex` on |
| `Text.Split` | emu/cli.py:31 | `str.split` always yields at least one piece |
| `Text.SplitJoin` | emu/cli.py:31 | joining the pieces with the separator gives back the original text |
| `Text.SplitCount` | emu/cli.py:31 | there is one more piece than there are separators |
| `Text.SplitPiecesFree` | emu/cli.py:31 | no piece contains the separator |
| `Text.SplitAround` | emu/cli.py:31 | text with exactly one separator splits into the two sides around it |
| `Text.ParseInt` | emu/cli.py:32 | `int()` succeeds exactly on an optional sign followed by 1 to 4300 decimal digits; without a minus sign the value is not negative |
| `Text.ParseShowRoundTrip` | emu/cli.py:32 | `int(str(n)) == n` for every integer of at most 4300 digits |
| `Text.ParseIntSigned` | emu/cli.py:32 | a digit string within the limit parses to its decimal value bare and after `+`, and to the negated value after `-` |
| `Text.ParseIntNonCanonical` | emu/cli.py:32 | leading zeros and a leading `+` do not change the value: `int("0080") == int("+80") == 80` |
| `Text.ParseIntTooManyDigits` | emu/cli.py:32 | text of more than 4300 digits after the sign is rejected |
| `Text.ParseIntEmpty` | emu/cli.py:32 | the empty text and a bare sign are rejected |
| `Text.ParseIntNonNumeric` | emu/cli.py:32 | a character that is neither a digit nor a leading sign makes the text rejected |
| `Text.Find` | emu/cli.py:29 | `str.find` gives the first index of the character, or -1 exactly when it is absent |
| `UrlSplit.Netloc` | emu/cli.py:29-30 | a network location that `urlparse` accepts has paired brackets and no `/`, `?` or `#` |
| `UrlSplit.NetlocOfSimpleUrl` | emu/cli.py:29-30 | the network location of `scheme://authority` followed by a path, query or fragment is `authority` when its square brackets pair up |
| `UrlSplit.NetlocUnpairedBrackets` | emu/cli.py:29 | the same URL is rejected with `InvalidIPv6Url` when `authority` has one kind of square bracket but not the other |
| `PosixPath.Dirname` | emu/wsgi.py:8 | `os.path.dirname(p)` is a prefix of `p`; it is empty exactly when `p` has no `/` |
| `PosixPath.Join` | emu/wsgi.py:8 | `os.path.join(a, b)` is `b` when `b` is absolute; otherwise it is `a + "/" + b` when `a` is non-empty without a trailing slash, and `a + b` when `a` is empty or ends in a slash |
| `PosixPath.RFindSlash` | emu/wsgi.py:8 | the index of the last `/`, or -1 when there is none |
| `PosixPath.DirnameOfChild` | emu/wsgi.py:8 | the directory of `dir/base` is `dir` |
| `Wsgi.DefaultConfigPath` | emu/wsgi.py:8 | the default configuration path always ends in `default.cfg` |
| `Wsgi.DefaultConfigBesideModule` | emu/wsgi.py:8 | for a module file `dir/wsgi.py` the default configuration is `dir/default.cfg` |
| `Wsgi.CreateApp` | emu/wsgi.py:7-12 | a fresh list of length `1 + len(cfgfiles)`, or 1 for `None`; it starts with the default path, followed by the caller's paths in order; the caller's list is unchanged |
| `Wsgi.Application` | emu/wsgi.py:15 | the module-level application gets exactly `[default.cfg]` |
| `Lists.MutableList.constructor` | emu/wsgi.py:8 | a list display holds exactly its elements |
| `Lists.MutableList.IsNonEmpty` | emu/wsgi.py:9 | a list is true in a condition exactly when it has an element |
| `Lists.MutableList.Append` | emu/cli.py:61 | `append` adds one element at the end |
| `Lists.MutableList.Extend` | emu/wsgi.py:10 | `extend` appends the other list's old contents, in order; it does not change the other list unless both are the same list |

## Left out

- `click` command wiring, option parsing and `click.echo` output (emu/cli.py:27, 39-57): command-line I/O. Click's default `127.0.0.1` for `--bind-host` is not modelled: `Cli.Start` takes the bind host as an input, whatever its source.
- `run_simple`, the worker thread, the `SIGTERM` handler and `WatchDog.run()` (emu/cli.py:72-96): network serving, threads, signals and a foreign library. `Cli.Serve` stops at the arguments it would pass to `run_simple`. The `SIGTERM` handler refers to `sys`, which is never imported.
- `configuration.get_config_value` (emu/cli.py:24, 70): foreign configuration reads, taken as the inputs `configuredUrl` and `outputPath`.
- `Service`, `make_app` and the process registry (emu/wsgi.py:11, emu/application.py): the foreign engine. The order of precedence among configuration files is applied by pywps, not here.
- emu/processes/wps_ncmeta.py: netCDF reading, HTTP requests and file writing, all foreign I/O.
- Text.ParseInt: accepts only an optional `+`/`-` followed by ASCII digits, at most 4300 of them (the default `int`/`str` conversion limit since Python 3.11, and in 3.10.7, 3.9.14, 3.8.14 and 3.7.14; older releases have no limit). Python's `int()` also accepts surrounding whitespace, `_` between digits and non-ASCII decimal digits. A port text using those is rejected by the model but accepted by Python.
- UrlSplit.Netloc: follows Python 3.12's `urlsplit`. That covers stripping leading control characters and spaces, removing tabs and line breaks, scheme detection, the `//` split and the unpaired-bracket check. It leaves out the IPv6 syntax validation of a bracketed host (`_check_bracketed_host`) and the Unicode normalisation check on non-ASCII network locations. A network location that fails only those two checks, such as `[abc]:80`, is accepted by `UrlSplit.Netloc`, so `Cli.GetHost` does not return `BadUrl` for it. It splits the network location as usual and returns `Ok`, `InvalidPort` or `UnpackMismatch` where Python raises `ValueError` inside `urlparse`. Older Python releases differ in these details.
- PosixPath: only the POSIX `/` separator, with `str` arguments.
