# GoXRay client, verified model

A Dafny model of the stateful parts of the GoXRay VPN client, with proofs over every input, every run
or every interleaving. Method bodies keep the source's order of effects, its failure exits and its
constants. `dafny verify dfyconfig.toml` checks everything.

| file | what it models |
|---|---|
| `net.dfy`, `text.dfy`, `routing.dfy` | IPv4 prefixes; trimming of characters and UTF-8 bytes; the route table, longest-prefix lookup (section 5.1 of RFC 4632), tolerant one-by-one adds and deletes |
| `firewall.dfy`, `kill_switch.dfy` | iptables with first-match semantics; what the kill-switch chain means to a packet |
| `firewall_races.dfy` | kill switch, connection killer and delayed clean-ups interleaved command by command |
| `split_tunnel_router.dfy`, `split_tunnel.dfy`, `split_tunnel_client.dfy` | the routing rule, the routes that implement it, and the two connected end to end |
| `client.dfy` | the `Client`: Connect, Disconnect, kill switch and split-tunnel set-up as effect sequences |
| `socks5_wire.dfy`, `socks5_server.dfy`, `socks5_answers.dfy`, `socks5_shutdown.dfy` | messages of RFC 1928 and RFC 1929; one connection over an arbitrary byte stream; Start/accept/handle/Stop |
| `health_checker.dfy`, `vpn_connector.dfy`, `reconnector.dfy` | probe, verdict, failover walk, backoff and retry loop |
| `server_selector.dfy`, `link_parser.dfy` | the worker pool and its ranking; the links that reach it |

How to read the client: every primitive effect (one route call, one flag, one process) ends by folding
"this state is safe" into the ghost flag `alwaysSafe`. `Safe` is: the running Xray instance's server is
not routed into the TUN, and an enabled kill switch is active whenever the VPN was up and is not now.
Since only an unsafe state lowers the flag, `AtRest()` after any sequence of calls says that *every
intermediate state* of every call was safe, failing exits included. Environment answers (which call
fails, whether the link resolves) are parameters, so each theorem holds for all of them.

## Where the code and its documentation differ

The model follows the code; each item is a consequence of the named result.

- `killSwitchActive` is set even when the set-up returned an error, and OUTPUT then has no jump. Traffic
  outside the whitelist is dropped if and only if four commands work, spelled out in
  `VpnClient.ActivationBlocksIff`; one failing command is enough (`VpnClient.ActiveButOpen`).
- The whitelist holds the server of the connection being torn down, not the one failed over to: until an
  attempt succeeds, new traffic to a server passes if and only if it is the old one
  (`VpnClient.NextServerIff`, and `VpnClient.SwitchServer` for any number of attempts).
- The REJECT rule that Disconnect appends to reset stale connections stands behind the jump, where no
  packet reaches it while the switch is installed (`KillSwitch.RejectIsShadowed`).
- That REJECT rule outlives a quick reconnect: with the switch down, packets the machine's own rules leave
  undecided are rejected if and only if a removal for their server and port is pending
  (`VpnClient.PendingRejectIff`; down and up again at the same server is
  `VpnClient.ReconnectSameServer`).
- Excluded networks /0 and /1 are not honoured: their routes collide with ones already there. The exact
  condition is `SplitTunnel.ExcludeAgreesIff`, a failing input `SplitTunnel.ExcludedDefaultIgnored`.
- The clean-up of exclude mode deletes gateway routes that were there before the set-up (exact condition
  `Routing.Restoration`, failing input `Routing.RestorationLost`) and, if the server's /32 is listed, the
  exception Connect installed (`VpnClient.Client.CleanupSplitTunneling`, `SplitTunnel.CleanupUnpinsIff`,
  failing input `SplitTunnel.CleanupUnpinsListed`). Include mode's RoutesToTUN are never restored.
- A retry limit of M > 0 yields ceil(M/2) reconnect calls, because two places count attempts
  (`Reconnector.LimitReachedIff`, failing input `Reconnector.LimitOfTwo`). A second `Start` of one
  Reconnector panics on its closed channel.
- A failover without a successor leaves the context cancelled and queues no fatal error; a later
  ConnectWithFallback then tries nothing (`VpnConnector.Connector.PerformFailover`, `.ConnectWithFallback`).
- The end-to-end probe never passes for an IPv6 target behind this repository's reply format
  (`HealthChecker.ProbeIff`), and its encoder truncates ports and long names (exact condition
  `HealthChecker.ConnectRoundTripIff`, failing input `HealthChecker.PortWraps`).
- SelectAllByScore reads a field of a nil info when a link does not parse: a complete run crashes if and
  only if some link does not (`ServerSelector.CompleteRunCrashesIff`, `LinkParser.SelectionCrashesIff`;
  the shortest such run is `ServerSelector.CrashingRun`). Links from ParseLinksFromRaw never cause it
  (`LinkParser.ParsedLinksNeverCrash`).

## Model

| member | source | states |
|---|---|---|
| `Net.PrefixIsMask` | pkg/client/split_tunnel_router.go:79-86 | the prefix test on bits used throughout is the masked 32-bit comparison of IPNet.Contains |
| `Routing.LookupIsLongestMatch` | pkg/client/client.go:52-57 | the lookup loop returns a hop exactly when the longest matching prefix has it, and nothing exactly when no prefix matches |
| `Routing.FillStepsIsFill` | pkg/client/client.go:1334-1344 | routes added one by one with tolerated failures amount to filling in exactly the missing prefixes |
| `Routing.Restoration` | pkg/client/split_tunnel_integration.go:61-130 | set-up followed by clean-up restores the table, for any lists with duplicates and any failing calls, if and only if no delete takes a pre-existing gateway route and every added route has a working delete |
| `KillSwitch.ExceptionsMeaning` | pkg/client/client.go:1584-1660 | the tolerated rules together with loopback match exactly the documented whitelist |
| `KillSwitch.SwitchMeaning` | pkg/client/client.go:1556-1680 | behind any jump-free OUTPUT, whichever tolerated commands failed: decided packets stay decided, a stale chain that could not be flushed decides next, the rest is accepted exactly if loopback or matched by a surviving exception, else dropped; with no failure exactly the whitelist passes |
| `KillSwitch.BlocksIff` | pkg/client/client.go:1498-1518 | a packet nothing else decides and outside the whitelist is dropped after activation if and only if the set-up works |
| `KillSwitch.PublicResolvers` | pkg/client/client.go:1641-1658 | the only unrelated traffic whitelisted besides server and gateway is UDP port 53 to the four public resolvers |
| `KillSwitch.RejectIsShadowed` | pkg/client/connection_killer.go:182-197 | an appended REJECT changes nothing behind an installed switch, and otherwise rejects exactly the undecided TCP packets to that server |
| `KillSwitch.HeadExceptionsMeaning` | pkg/client/split_tunnel_integration.go:150-160 | head insertions, some failing, add exactly the inserted networks to what the chain accepts |
| `FirewallRaces.Conservation` | pkg/client/connection_killer.go:182-217 | in every interleaving of activations, deactivations, REJECT additions and delayed removals OUTPUT keeps its original rules as prefix; once nothing is pending and no command failed it is those rules plus one jump exactly when active |
| `FirewallRaces.ActivationCompletes` | pkg/client/client.go:1481-1519 | an activation whose commands work ends active with the complete chain and the jump appended to OUTPUT |
| `FirewallRaces.DeactivationCompletes` | pkg/client/client.go:1683-1713 | a deactivation whose commands work removes the one jump and the chain and nothing else |
| `FirewallRaces.FailureAborts` | pkg/client/client.go:1577-1677 | a failing command ends the sequence early exactly if it appends the loopback rule, the DROP or the jump; any other is passed over |
| `SplitTunnelRouter.Router.ParseCidrs` | pkg/client/split_tunnel_router.go:46-68 | succeeds exactly if every CIDR of both lists parses, and then caches all of them in order |
| `SplitTunnelRouter.Router.ShouldRouteThroughVpn` | pkg/client/split_tunnel_router.go:71-104 | the match loops decide by membership in some listed network, per mode |
| `SplitTunnelRouter.Router.GetExcludedRoutes` | pkg/client/split_tunnel_router.go:108-118 | the routes are the cached networks in order, and parsing them again cannot panic |
| `SplitTunnelRouter.Router.GetIncludedRoutes` | pkg/client/split_tunnel_router.go:122-132 | the same for include mode |
| `SplitTunnelRouter.Validate` | pkg/client/split_tunnel_config.go:47-84 | exactly the accepted configurations: disabled, or a known mode whose active list is non-empty and parses |
| `SplitTunnelRouter.NewRouter` | pkg/client/split_tunnel_router.go:22-43 | a router exists exactly for usable configurations, and is valid |
| `SplitTunnel.ConnectedRoutesClean` | pkg/client/client.go:1330-1394 | without failures the table that Connect builds call by call is the closed-form one |
| `SplitTunnel.TunnelEntry` | pkg/client/client.go:1330-1394 | that table prefix by prefix: the exception wins over the machine's routes, those over TUN and DNS routes, and DNS protection adds its hosts and a default where free |
| `SplitTunnel.ProtectedDns` | pkg/client/client.go:60-68 | each of the six DNS servers is reached through the tunnel unless it is the server or has a host route |
| `SplitTunnel.ExcludeRefines` | pkg/client/split_tunnel_integration.go:49-83 | on any base without TUN routes, which destinations enter the TUN in exclude mode, DNS protection on or off |
| `SplitTunnel.ExcludeAgreesIff` | pkg/client/split_tunnel_router.go:71-87 | table and ShouldRouteThroughVPN agree on a destination if and only if, when excluded, it is excluded by a network of at least 2 bits |
| `SplitTunnel.ExcludeAgrees` | pkg/client/split_tunnel_router.go:71-87 | with all excluded networks at least 2 bits long they agree on every destination other than the server |
| `SplitTunnel.IncludeAgrees` | pkg/client/split_tunnel_integration.go:86-105 | whenever the included routes can be added, exactly the included destinations and the protected DNS servers enter the TUN |
| `SplitTunnel.ServerBypassesTunnel` | pkg/client/client.go:893-897 | the server's own /32 wins over TUN, DNS and excluded routes |
| `SplitTunnel.CleanupUnpinsIff` | pkg/client/split_tunnel_integration.go:108-134 | on any machine, DNS protection on or off, any calls failing: after a clean-up while connected the server is routed into the TUN if and only if its /32 is on the list and gets deleted and no other route of at least 2 bits to it is left |
| `SplitTunnelClient.ConnectExcluding` | pkg/client/split_tunnel_integration.go:12-83 | Connect and the exclude set-up leave a table that routes every destination but the server as the rule says, with the exact exception |
| `SplitTunnelClient.ConnectIncluding` | pkg/client/split_tunnel_integration.go:86-105 | include mode then Connect: agreement on every destination but the server; Connect succeeds exactly if the networks are addable |
| `SplitTunnelClient.IntegrationAgrees` | pkg/client/split_tunnel_integration.go:137-163 | the chain accepts a packet exactly when it did before or ShouldRouteThroughVPN of its destination is false |
| `VpnClient.Client.constructor` | pkg/client/client.go:389-417 | a new client on a machine without TUN routes and jumps is at rest, was never connected, and OUTPUT is the machine's own |
| `VpnClient.Client.AddRoutes` | pkg/client/client.go:1011-1013 | one library call adds all prefixes or, if one is present, none |
| `VpnClient.Client.DeleteRoutes` | pkg/client/client.go:498-500 | one library call removes what matches prefix and hop |
| `VpnClient.Client.SetupKillSwitchRules` | pkg/client/client.go:1556-1680 | nil exactly if the chain exists and the three critical commands work; the chain's exact content on every exit, a failed flush included; on error OUTPUT is untouched |
| `VpnClient.ActivationBlocksIff` | pkg/client/client.go:1556-1680 | from an inactive switch, an undecided packet outside the whitelist is dropped afterwards if and only if the chain is there or made, its loopback and DROP appends work, and OUTPUT jumps to it; every other failure is tolerated |
| `VpnClient.Client.ActivateKillSwitch` | pkg/client/client.go:1481-1519 | idempotent; raises the flag whether or not the set-up worked; adds the jump exactly if it did, over exactly the chain it installed; with no failing command the accounting of OUTPUT stays exact |
| `VpnClient.Client.CleanupKillSwitchRules` | pkg/client/client.go:1683-1713 | removes the first jump unless the command fails; the chain goes when everything works |
| `VpnClient.Client.DeactivateKillSwitch` | pkg/client/client.go:1523-1552 | lowers the flag and restores OUTPUT; keeps "exactly one jump when active, none when inactive" |
| `VpnClient.Client.RejectStale` | pkg/client/connection_killer.go:182-197 | appends one REJECT and schedules its removal; OUTPUT stays the machine's rules, the pending REJECTs and the jump |
| `VpnClient.Client.FireTimer` | pkg/client/connection_killer.go:201-217 | takes one occurrence of that rule off and forgets it; the accounting of OUTPUT is kept |
| `VpnClient.Client.SetupTunnel` | pkg/client/client.go:979-1027 | all TUN routes or none; the server's exception keeps deciding |
| `VpnClient.Client.SetupDnsProtection` | pkg/client/client.go:1303-1394 | exactly the DNS routes that were free and worked are added; nothing loops meanwhile |
| `VpnClient.Client.PinServer` | pkg/client/client.go:498-507 | replaces a left-over exception and pins the server while Xray already runs; fails exactly if the Add does or another interface has a route to the server |
| `VpnClient.Client.Abandon` | pkg/client/client.go:511-546 | a failure exit removes exception and Xray; routes are the machine's own again |
| `VpnClient.Client.Connect` | pkg/client/client.go:461-636 | succeeds exactly under the listed outside conditions and free prefixes; a connected client has exactly the documented routes, one Xray, server and port of the link, and the switch down, and counts as having been connected; a failed one leaves no Xray instance, no route, and firewall and whitelist as they were; every intermediate state is loop-free and covered |
| `VpnClient.Client.Disconnect` | pkg/client/client.go:640-750 | the switch goes up first, for the server connected so far, and stays; no Xray and only the machine's routes remain; OUTPUT gains exactly the jump and the temporary REJECT, whose removal is scheduled; every intermediate state is safe |
| `VpnClient.Client.RunCalls` | pkg/client/client.go:461-798 | over any sequence of Connects, Disconnects and timers with any outcomes: every intermediate state safe, once connected and down means blocking, the machine's routes are exactly the folded ones, and with no failing command OUTPUT holds one jump when active and none otherwise |
| `VpnClient.RunFromStart` | pkg/client/client.go:461-798 | the same from a new client in terms of the initial tables only: routes when down, gateway exceptions exactly the connected server's, coverage, and OUTPUT as the machine's rules plus pending REJECTs plus the jump when active |
| `VpnClient.BaseAfterCallsEntry` | pkg/client/client.go:498-500 | a run takes from the machine's routes exactly gateway routes to servers it started Xray for |
| `VpnClient.ExceptionsAtRest` | pkg/client/client.go:893-897 | between calls the gateway host routes are the machine's plus exactly the connected server's |
| `VpnClient.SealedAtRest` | pkg/client/client.go:1481-1519 | between calls, active switch and no failed command (which RunCalls delivers from its inputs), every packet's verdict: what stands before the jump decides first, then exactly split-tunnel exceptions and the whitelist of the server at activation are accepted, all else dropped |
| `VpnClient.JumpStands` | pkg/client/client.go:1672-1677 | such an OUTPUT always has that shape: one jump, and no jump before or behind it |
| `VpnClient.NextServerIff` | pkg/client/client.go:1594-1606 | new traffic to a server, covered by no other exception, is accepted if and only if that server is the whitelisted one, and dropped otherwise |
| `VpnClient.SwitchServer` | pkg/client/vpn_connector.go:222-327 | through a Disconnect whose commands work and any number of failed attempts, OUTPUT holds one jump and such traffic is accepted if it goes to the old server and dropped otherwise; success exactly if some attempt can succeed |
| `VpnClient.PendingRejectIff` | pkg/client/connection_killer.go:182-217 | with the switch down a packet undecided by the machine's rules is rejected if and only if a matching REJECT awaits removal, else left to the policy |
| `VpnClient.DisconnectRejects` | pkg/client/client.go:680-687 | without a kill switch a Disconnect rejects exactly the TCP traffic to the old server at its port |
| `VpnClient.Client.SetupSplitTunneling` | pkg/client/split_tunnel_integration.go:12-46 | succeeds exactly for usable exclude or include configurations, and what it does to routes and RoutesToTUN; an invariant-preserving step at any moment |
| `VpnClient.Client.SetupExcludeMode` | pkg/client/split_tunnel_integration.go:49-83 | fills in the networks through the gateway, failures tolerated, without touching the client's own routes |
| `VpnClient.Client.SetupIncludeMode` | pkg/client/split_tunnel_integration.go:86-105 | replaces RoutesToTUN by the included networks exactly when there are some |
| `VpnClient.Client.CleanupSplitTunneling` | pkg/client/split_tunnel_integration.go:108-134 | deletes the networks in exclude mode; the client stays sound if and only if the connected server's own /32 is not deleted thereby |
| `VpnClient.Client.IntegrateSplitTunnel` | pkg/client/split_tunnel_integration.go:137-163 | puts the excluded networks before the chain in exclude mode, nothing otherwise |
| `Socks5Wire.ReplyDelimited` | pkg/socks5/server.go:476-504 | every reply parses back to its code and consumes exactly itself, for every ATYP byte; its bytes spelled out: 10 octets unless IPv6, then 22 |
| `Socks5Wire.AddressRoundTrip` | pkg/socks5/server.go:404-464 | reading an address yields a target and a rest if and only if the bytes are that target printed, then the rest |
| `Socks5Server.Conn.ReadFull` | pkg/socks5/server.go:227-240 | however the stream is cut into chunks, exactly its first n bytes or failure |
| `Socks5Server.Conn.CloseGracefully` | pkg/socks5/server.go:209-221 | what the peer still sends is absorbed before the close |
| `Socks5Server.Server.DoHandshake` | pkg/socks5/server.go:224-275 | refines the handshake function of the stream: output, bytes left, outcome |
| `Socks5Server.Server.DoAuthenticate` | pkg/socks5/server.go:278-329 | refines the authentication function of the stream |
| `Socks5Server.Server.ReadAddress` | pkg/socks5/server.go:404-464 | refines the address parser that AddressRoundTrip inverts |
| `Socks5Server.Server.SendReply` | pkg/socks5/server.go:476-504 | writes the self-delimiting reply of ReplyDelimited, or as much as the peer takes |
| `Socks5Server.Server.Relay` | pkg/socks5/server.go:507-547 | both directions: the destination gets precisely the remaining client bytes, the client the destination's, as far as it takes them |
| `Socks5Server.Server.ProcessRequest` | pkg/socks5/server.go:332-401 | refines the request function: one reply, then a relay of precisely the remaining bytes and of what the destination sends |
| `Socks5Server.Server.HandleConnection` | pkg/socks5/server.go:160-192 | for every chunking the connection is the session function of its bytes, then drained and closed |
| `Socks5Server.RelayIff` | pkg/socks5/server.go:160-401 | a relay with given remaining bytes starts if and only if the stream is a greeting offering the method, the right credentials if due, a CONNECT and those bytes, the dial works and the peer takes the answers |
| `Socks5Server.RelayReturns` | pkg/socks5/server.go:382-398 | without a relay nothing follows the output; with one, precisely the destination's bytes do |
| `Socks5Server.OutputGrammar` | pkg/socks5/server.go:160-401 | any output is a prefix of method choice, status if credentials are configured, one reply; a refusal is last; a relay implies the complete successful output |
| `Socks5Answers.GreetingAnswers` | pkg/socks5/server.go:224-275 | a truncated or foreign greeting gets nothing, one that does not offer the due method gets 5, 255 and no more |
| `Socks5Answers.CredentialsDecide` | pkg/socks5/server.go:278-329 | over whole sessions the status is 0 exactly for the configured credentials; otherwise the output is the choice and status 1, and nothing is relayed |
| `Socks5Answers.NoCredentialsNoStatus` | pkg/socks5/server.go:278-311 | bytes that are no credentials message get no status at all |
| `Socks5Answers.RequestAnswers` | pkg/socks5/server.go:332-401 | for every request of an admitted client the reply code in numbers: 7, 8, 1, 4 or 0, or none, and which of them are relayed |
| `Socks5Answers.RequestAnswersWithCredentials` | pkg/socks5/server.go:332-401 | the same behind matching credentials |
| `Socks5Shutdown.ShutdownSafe` | pkg/socks5/server.go:91-157 | in every reachable state the WaitGroup equals the live loop plus live handlers plus the one about to start; when Stop has returned every accepted connection is closed |
| `Socks5Shutdown.NothingAfterStop` | pkg/socks5/server.go:107-120 | after Stop returned no continuation accepts a connection or starts a handler |
| `Socks5Shutdown.StepsRunOut` | pkg/socks5/server.go:107-157 | once Stop is called every step lowers a measure |
| `Socks5Shutdown.StopNeverStuck` | pkg/socks5/server.go:107-120 | and until it returns some step other than a new Start is possible |
| `Socks5Shutdown.AcceptedIsServed` | pkg/socks5/server.go:123-157 | whatever connection an open server accepts gets a handler of its own, counted by the WaitGroup |
| `HealthChecker.BuildConnect` | pkg/client/health_checker.go:275-303 | the appended bytes are the request that ConnectRoundTripIff reads back |
| `HealthChecker.ConnectRoundTripIff` | pkg/client/health_checker.go:276-303 | the server recovers target and port and consumes exactly the request if and only if the port fits 16 bits and a name 255 bytes |
| `HealthChecker.ProbeIff` | pkg/client/health_checker.go:305-351 | the 10 octets read are the whole reply exactly for non-IPv6 targets, and the probe passes exactly for success, non-IPv6 and an HTTP answer |
| `HealthChecker.ProbeThroughServerIff` | pkg/client/health_checker.go:238-351 | fed to this server's session the probe relays precisely its HTTP request, gets the method choice and one reply, and passes if and only if the dial works, the target is not IPv6 and HTTP comes back |
| `HealthChecker.HttpAnswerIff` | pkg/client/health_checker.go:339-351 | a response passes exactly if its first line, blanks aside, starts with HTTP/ and ends in a newline, with or without a carriage return |
| `HealthChecker.TrailingIs` | pkg/client/health_checker.go:369-373 | the counter's meaning: k exactly if the last k checks failed and the one before did not |
| `HealthChecker.RunTripsOnce` | pkg/client/health_checker.go:381-394 | in a maximal failing run the callback is due exactly at its limit-th failure |
| `HealthChecker.TripsInARun` | pkg/client/health_checker.go:381-394 | and every due callback is the limit-th failure of some maximal run |
| `HealthChecker.DueIff` | pkg/client/health_checker.go:381-394 | the indices at which callbacks are due, as the limit-th failures of maximal runs |
| `HealthChecker.Checker.HandleUnhealthy` | pkg/client/health_checker.go:369-394 | keeps healthy exactly when trailing failures are below the limit, and callbacks fired equal to trips in the history |
| `HealthChecker.Checker.MarkHealthy` | pkg/client/health_checker.go:397-408 | keeps the same after a passing check |
| `HealthChecker.Checker.OnUnhealthy` | pkg/client/vpn_connector.go:183-191 | only the first callback starts a failover |
| `HealthChecker.Checker.RunChecks` | pkg/client/health_checker.go:132-163 | over every sequence of outcomes: healthy exactly below max(1, maxRetries) trailing failures, callbacks counted exactly, and one failover if there was any |
| `VpnConnector.FirstWorkingIsFirst` | pkg/client/vpn_connector.go:85-129 | the server connected to is the earliest that works |
| `VpnConnector.AttemptsOfWalk` | pkg/client/vpn_connector.go:227-327 | a failover's attempts are consecutive indices, each behind one disconnect |
| `VpnConnector.WalkShape` | pkg/client/vpn_connector.go:239-262 | event by event: a disconnect before each attempt and nowhere else |
| `VpnConnector.Connector.ConnectWithFallback` | pkg/client/vpn_connector.go:77-134 | attempts 0..k up to the first working server, which is then current and monitored; all of them when none works; none under a cancelled context |
| `VpnConnector.Connector.PerformFailover` | pkg/client/vpn_connector.go:195-328 | terminates, clears isFailingOver, and ends connected to the first later working server, or at the last index with the fatal error, or unchanged when there is no successor |
| `VpnConnector.Connector.ConnectAndFailOver` | pkg/client/vpn_connector.go:77-328 | over one start and any number of failovers the indices tried are 0,1,...,k with no skip or repeat |
| `Reconnector.SetDefaults` | pkg/client/reconnector.go:43-59 | always sane, identity on sane configurations, and which field falls back to which default |
| `Reconnector.NextInEnvelope` | pkg/client/reconnector.go:254-280 | if the last backoff is in its envelope so is the next, although jitter compounds; any factor above 1 |
| `Reconnector.Reconnector.NextBackoff` | pkg/client/reconnector.go:254-280 | every backoff since the reset stays in its envelope, and each is what was announced with the jitter of that attempt, within 7/8 and 11/8 of it, capped |
| `Reconnector.WithJitterIs` | pkg/client/reconnector.go:272-278 | the jitter is a quarter of the backoff times the sine plus one half, and the cap comes last |
| `Reconnector.Reconnector.PeekNextBackoff` | pkg/client/reconnector.go:283-295 | the announced value the bounds of NextBackoff refer to |
| `Reconnector.Reconnector.Start` | pkg/client/reconnector.go:104-185 | the loop is the Play function of its environment, whose results RetryBound, ReconnectedIff and EndedIff give; giving up leaves attempts at twice the calls, success resets; a second Start panics |
| `Reconnector.RetryBound` | pkg/client/reconnector.go:123-175 | at most ceil(M/2) calls, and giving up exactly when that many undisturbed rounds fail |
| `Reconnector.ReconnectedIff` | pkg/client/reconnector.go:118-163 | for every limit, none included: success with the (k+1)-st call exactly if k rounds fail undisturbed, the next is waited out and connects, and the limit allows it |
| `Reconnector.EndedIff` | pkg/client/reconnector.go:166-175 | stopped or context error by the first signal, told apart; without a limit the loop never gives up |
| `Reconnector.LimitReachedIff` | pkg/client/reconnector.go:26-28 | a run that gives up made the documented M calls if and only if M is 1 |
| `ServerSelector.ScoreInUnit` | pkg/client/server_selector.go:192-203 | every score is in [0,1], with exact conditions for both ends |
| `ServerSelector.ScoreAntitone` | pkg/client/server_selector.go:192-203 | more latency or loss never scores higher, and equal only where stated |
| `ServerSelector.ScoreIs` | pkg/client/server_selector.go:192-203 | latency and loss weigh the same: the score is one minus half of latency/2000, at most one, plus loss |
| `ServerSelector.ScoreOrderIff` | pkg/client/server_selector.go:192-203 | up to two seconds a server ranks no lower exactly if its latency/2000 + loss is no higher |
| `ServerSelector.DialForLatency` | pkg/client/server_selector.go:192-203 | the exchange rate: 400 ms are worth one lost dial in five |
| `ServerSelector.CheckPacketLoss` | pkg/client/server_selector.go:169-188 | the loss is the share of failed dials |
| `ServerSelector.CheckServerHealth` | pkg/client/server_selector.go:128-166 | which of no info, unavailable and measured results, and a loss in [0,1] |
| `ServerSelector.PoolSafe` | pkg/client/server_selector.go:290-320 | in every state of every interleaving: checks in flight within the semaphore, no link checked twice, a crash only in the check of an unparsable link, runs bounded, no deadlock |
| `ServerSelector.CompleteRunCrashesIff` | pkg/client/server_selector.go:305-310 | every run that can go no further has crashed if and only if some link yields no info, and has joined otherwise |
| `ServerSelector.JoinedComplete` | pkg/client/server_selector.go:290-322 | after wg.Wait every link was checked exactly once and the slice names exactly the available servers, no append lost |
| `ServerSelector.ZeroCapacityBlocks` | pkg/client/server_selector.go:46-48 | without the default of 10 a zero capacity would block at the first send |
| `ServerSelector.NewServerSelector` | pkg/client/server_selector.go:39-48 | the capacity is what is configured, negative numbers included, and 10 for 0 |
| `ServerSelector.SemaphoreIff` | pkg/client/server_selector.go:294 | making the semaphore panics exactly for a negative setting, and otherwise it has room |
| `ServerSelector.SelectionMeaning` | pkg/client/server_selector.go:206-213 | the result is exactly the available servers, each once, cheapest first by latency/2000 + loss, its head the best; the error cases exactly |
| `ServerSelector.InterleavingIndependent` | pkg/client/server_selector.go:283-342 | any two interleavings return the same kind of result and the same scores place by place, and the same list if scores are distinct |
| `LinkParser.LinesRoundTrip` | pkg/client/link_parser.go:46 | splitting loses nothing and leaves no newline in a line |
| `LinkParser.TrimSpaceStable` | pkg/client/server_selector.go:356 | the extractor's second trim changes nothing |
| `Text.TrimDecomposes` | pkg/client/link_parser.go:48 | trimming takes blanks off both ends, nothing else, and all of them |
| `LinkParser.UnmarshalNarrows` | pkg/client/server_selector.go:412-418 | a document that decodes into the full configuration decodes into the two-field struct with the same values |
| `LinkParser.UnmarshalMeans` | pkg/client/link_parser.go:115-118 | decoding fails exactly on wanted fields that are neither strings nor null, and a field has its last string |
| `LinkParser.DecodesIff` | pkg/client/link_parser.go:99-112 | a payload decodes if any of the three codecs reads it, as the first that does |
| `LinkParser.ParseLinksFromRaw` | pkg/client/link_parser.go:43-61 | the loop returns the kept trimmed lines in order |
| `LinkParser.KeptMembers` | pkg/client/link_parser.go:43-61 | a link is returned exactly if it is some line trimmed and is valid |
| `LinkParser.KeptIsValid` | pkg/client/link_parser.go:64-129 | the lines kept are exactly the valid links, spelled out in terms of the decoders |
| `LinkParser.ParsedLine` | pkg/client/link_parser.go:46-55 | a line yields the text between its blanks if that is a valid link; CRLF costs nothing |
| `LinkParser.ParsedJoins` | pkg/client/link_parser.go:46-60 | texts joined by a newline yield the links of the first, then those of the second |
| `LinkParser.KeptIff` | pkg/client/link_parser.go:64-129 | on a trimmed line: kept if and only if the extractor reads it with a port of its own and a VMess document decodes entirely |
| `LinkParser.ParsedLinksExtract` | pkg/client/server_selector.go:355-432 | every returned link has a non-empty host and a port that is not the 443 default |
| `LinkParser.VlessExtract` | pkg/client/server_selector.go:369-387 | a VLESS link gives exactly its URL's host name, and the URL's port or 443 |
| `LinkParser.VmessExtract` | pkg/client/server_selector.go:390-432 | a VMess link gives exactly the document's add, and its port or 443 |
| `LinkParser.ParsedLinksNeverCrash` | pkg/client/server_selector.go:307-310 | no interleaving of a selection over parsed links reads a missing info |
| `LinkParser.SelectionCrashesIff` | pkg/client/server_selector.go:303-310 | a complete selection over any links crashes if and only if one of them does not extract |

## Left out

- IPv6: routes, ip6tables and the system-command fallbacks; addresses are IPv4 except in SOCKS5 messages.
- Route library: Add is all-or-nothing, Delete fails only when nothing matches (split-tunnel calls may also fail for no reason), and closing the TUN or Xray succeeds and drops the TUN's routes.
- Overlapping calls: Connect and Disconnect on one client run one at a time; a timed-out Connect goroutine that is still running is not modelled.
- VpnClient.Client.Disconnect: the joined error it returns and the wait for the tunnel goroutine are not modelled, because they change neither routes, rules nor flags.
- VpnClient.Client.SetupKillSwitchRules: two identical commands of one set-up (the gateway being a public DNS server) share one outcome, since faults are a function of the command.
- Other parts of connection killing: `ss`, `conntrack` and the time limit; a REJECT rule is appended, or not.
- HTTP, sockets, TUN device, Xray core, tun2socks pipe, metrics, logs, status maps, YAML and flags: parameters or absent, nothing to prove.
- Time: sleeps, deadlines and tickers are possible steps; a read deadline ends the stream early.
- Socks5Server.Server.Relay: writes to the destination succeed, and what the destination sends is a parameter rather than a reaction to what it gets.
- Socks5Shutdown.ShutdownSafe: one Start per server; a handler's service always ends because the relay's watcher closes it on cancellation.
- HealthChecker.ProbeIff: stated for replies of the form this repository's server sends, each arriving in one segment; in deployment the peer is Xray's inbound.
- Reconnector.Reconnector.NextBackoff: durations are reals, so rounding to nanoseconds and overflow are absent; the sine is any value in [-1,1].
- Reconnector.Reconnector.Start: a concurrent Reset, and Stop blocking when Start has never run, are not modelled.
- ServerSelector.ScoreInUnit: floating-point rounding.
- ServerSelector.InterleavingIndependent: sort.Slice is any permutation that orders; SelectAllByLatency runs the same pool and is not repeated.
- LinkParser.KeptIff: URL, base64 and JSON decoding are shared parameters; strings are characters, not bytes.
- ParseVMessLink, ValidateLink, report formatting, GetStats, GetStatus: easy members.
