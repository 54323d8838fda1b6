/** The middleware library as the bridge sees it: opaque handles for sessions
    ("nodes"), publishers and subscribers, the log levels its log callback reports,
    and the outcome of a creation call. The library itself is not modelled; every
    creation call is an input of the step that makes it. */
module Ros {
  import opened Wrappers

  /** A session with a master. `handle` tells apart sessions the library created. */
  datatype Node = Node(name: string, master: string, handle: nat)

  datatype Publisher = Publisher(topic: string, handle: nat)

  datatype Subscriber = Subscriber(topic: string, handle: nat)

  /** The levels of the library's log callback; any other code is `LevelUnknown`. */
  datatype LogLevel = LevelDebug | LevelInfo | LevelWarn | LevelError | LevelFatal | LevelUnknown(code: int)

  /** What a log callback did with one library log line: logged it at a level, reported
      an unknown level as an error, ended the process (a fatal log exits), or dropped it. */
  datatype Logged = LoggedAt(level: LogLevel, msg: string) | UnknownLevelReported(code: int, msg: string) | Exited(msg: string) | NotLogged

  /** What a creation call gave back: the new handle's number, or the library's error. */
  type Creation = Result<nat, string>

  /** What the publisher constructor gave back: the new publisher's handle number, or an
      error. `NodeTerminated` is the one error the bridge singles out. */
  datatype PublisherCreation = PublisherCreated(handle: nat) | NodeTerminated | PublisherFailed(err: string)

  /** One second, the debounce window of every reconnect handler and the retry back-off. */
  const OneSecondMs: int := 1000
}
