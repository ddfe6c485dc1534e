# Escape room and RoboMaster simulator: verified model

A Dafny model of the simulator of RoboMaster robots and of the escape-room mission built on it, and proofs of
what they promise. Floats are exact reals; bytes and checksums are bit vectors of the original widths. Code that
updates fields or buffers is modelled by classes, methods and loops, each proved against a specification function;
the properties are lemmas about those functions, over all inputs and over whole runs.

| files | subject |
|---|---|
| `CrcTables`, `CrcBits`, `Crc`, `Protocol`, `Discovery` | the wire protocol: table-driven checksums against shift registers, what they detect, framing and decoding, announcements |
| `Grids`, `Frontier` | clusters of frontier cells in an occupancy grid |
| `Walls`, `Room` | cutting doors out of walls, and the closed room built from the pieces |
| `ImageScan` | bounding boxes from a segmentation image |
| `Topic`, `Commands` | periodic publication, subscriptions, and the heartbeat watchdog |
| `RealMath`, `Geometry` | angles, poses, mecanum kinematics |
| `Arm`, `ArmMotors`, `Gimbal` | limits of the coupled arm motors, unwrapping of gimbal goals |
| `Robot`, `RobotRuns`, `SlotSteps`, `Reports`, `TimedActions`, `Forwarding`, `Effects`, `MoveConvergence` | the robot's step, its action slots over whole runs, reports, durations, forwarding of commands, effects of single events, convergence of a move |
| `NavClient`, `Mission`, `MissionRuns`, `MissionGoals`, `MissionMoves`, `MissionTicks` | the asynchronous navigation client and the mission state machine under any interleaving |

`dafny verify dfyconfig.toml` verifies the whole project.

Where the code and its comments disagree, the model follows the code and the exact condition is proved under which
the comment holds: `Arm.NearestIff` (nearest point), `Gimbal.PitchFrameHonouredIff` (frame of the pitch axis),
`ArmMotors.HeadingSafeIff` (motors in different modes),
`ImageScan.PerRootIff` (roots above 255), `Protocol.TruncationRefusedIff` (payloads above 1010 bytes),
`Walls.CutWallSucceedsIff` (doors that merely touch), `Forwarding.GripperAfterOneStepIff` (status and power changed
together), `NavClient.CancelStopsAllIff`, `NavClient.ResultsOfLatestIff`, `MissionGoals.LeavingExploreIff` and
`MissionGoals.KeyLegOwnIff` (goals that outlive a transition).

How runs are described: a run is a sequence of events (steps, requests, callbacks, detections) in any order, and each
class records what can be seen from outside in a log. Library functions (sine, cosine, square root, arctangent) are
parameters; the few laws a theorem uses of them are its precondition (`Maths.Lawful`, `LawfulConfig`). A navigation
server is `Lawful` if it answers only goals it was sent, and finishes only goals it accepted, each once; theorems that
need this say so, the others hold for any callbacks.

## Model

| member | source | states |
|---|---|---|
| `CrcTables.Crc8TableIsShift` | src/robomaster_sim/src/protocol.cpp:10-27 | every entry of the CRC-8 table is eight steps of the reflected shift register with polynomial 0x8C |
| `CrcTables.Crc16TableIsShift` | src/robomaster_sim/src/protocol.cpp:29-52 | every entry of the CRC-16 table is eight steps of the reflected shift register with polynomial 0x8408, the table of RFC 1662, appendix C.2 |
| `Crc.Crc8Calc` | src/robomaster_sim/src/protocol.cpp:54-60 | the table loop computes the bit-by-bit CRC-8 of the bytes, from the initial value 0x77 |
| `Crc.Crc16Calc` | src/robomaster_sim/src/protocol.cpp:62-68 | the table loop computes the bit-by-bit CRC-16 of the bytes, from the initial value 0x3692 |
| `Crc.Register8Injective` | src/robomaster_sim/src/protocol.cpp:54-60 | two different CRC-8 registers never meet again on the same data |
| `Crc.Register16Injective` | src/robomaster_sim/src/protocol.cpp:62-68 | two different CRC-16 registers never meet again on the same data |
| `Crc.SingleByteDetected8` | src/robomaster_sim/src/protocol.cpp:54-60 | altering any one byte changes the CRC-8, for every length |
| `Crc.BurstDetected16` | src/robomaster_sim/src/protocol.cpp:62-68 | altering any one byte or any two adjacent bytes changes the CRC-16, for every length |
| `Crc.RegisterIsSerial` | src/robomaster_sim/src/protocol.cpp:62-68 | the byte-wise register is the register fed one bit at a time, lowest bit first |
| `Crc.BitBurstDetected16` | src/robomaster_sim/src/protocol.cpp:62-68 | altering anything within sixteen consecutive bits changes the CRC-16, also when they straddle three bytes, for every length |
| `Crc.OddChangeDetected16` | src/robomaster_sim/src/protocol.cpp:62-68 | altering any odd number of bits changes the CRC-16, wherever they lie |
| `CrcBits.SerialParity` | src/robomaster_sim/src/protocol.cpp:62-68 | the parity of the register and of the bits fed to it is kept: the polynomial has an even number of terms |
| `CrcBits.WordInjective` | src/robomaster_sim/src/protocol.cpp:62-68 | up to sixteen bits can be told from the register after them |
| `Crc.ResidueIsZero` | src/robomaster_sim/src/protocol.cpp:128-129 | data followed by two bytes leaves a zero register exactly if they are its CRC-16, low byte first |
| `Protocol.EncodeMsg` | src/robomaster_sim/src/protocol.cpp:108-131 | the buffer filled index by index is the specified frame: preamble, header checksum, header fields, payload, and the checksum of all of it |
| `Protocol.WriteHeader` | src/robomaster_sim/src/protocol.cpp:114-124 | the eleven header bytes are the specified header, whatever was in the buffer |
| `Protocol.WriteLittleEndian` | src/robomaster_sim/src/protocol.cpp:129 | two bytes are written low byte first and nothing else is touched |
| `Protocol.DecodeRequest` | src/robomaster_sim/src/protocol.cpp:133-161 | a request is read exactly if four bytes and the declared length have arrived, the first is 0x55 and the fourth the checksum of the first three; every field comes from its own index; and this is what the specification of decoding says |
| `Protocol.DecodeFrame` | src/robomaster_sim/src/protocol.cpp:108-161 | an encoded frame followed by anything is accepted exactly when at least four bytes and the declared length (the frame length modulo 1024) have arrived, and then gives back every header field and the payload |
| `Protocol.TruncationRefusedIff` | src/robomaster_sim/src/protocol.cpp:146-152 | every proper prefix of a frame is refused exactly if the payload has at most 1010 bytes |
| `Protocol.ShortReadAccepted` | src/robomaster_sim/src/protocol.cpp:146-152 | a concrete frame with a payload of 1011 bytes is accepted when only four bytes of it have arrived |
| `Protocol.HeaderCorruptionRefused` | src/robomaster_sim/src/protocol.cpp:140-147 | changing any one of the first four bytes makes decoding fail |
| `Protocol.AcceptanceIgnoresBody` | src/robomaster_sim/src/protocol.cpp:133-161 | acceptance depends on the first four bytes alone: the trailing checksum is never looked at |
| `Protocol.FrameResidue` | src/robomaster_sim/src/protocol.cpp:128-130 | running the CRC-16 over a whole frame, checksum included, gives zero |
| `Protocol.FrameCorruptionDetected` | src/robomaster_sim/src/protocol.cpp:108-131 | a frame with any one byte or two adjacent bytes altered leaves a nonzero CRC-16, for every payload |
| `Protocol.FrameAlterationDetected` | src/robomaster_sim/src/protocol.cpp:108-131 | a frame altered within sixteen consecutive bits, or in an odd number of bits, leaves a nonzero CRC-16 |
| `Protocol.ReplyReachesSender` | src/robomaster_sim/include/protocol.hpp:36-57 | a response built from a request decodes, for every payload, with sender and receiver swapped, the same sequence number, and the acknowledge bit set exactly if either of the two request bits was, and the request bit otherwise |
| `Protocol.FrameHeaderAccepted` | src/robomaster_sim/src/protocol.cpp:113-117 | whatever follows a frame, its header is accepted and declares its length modulo 1024 |
| `Protocol.FrameLayout` | src/robomaster_sim/src/protocol.cpp:108-131 | what stands at every index of a frame, in literal bytes and bits: magic number, ten length bits and a version bit, both checksums with their initial values, addresses, number, the two acknowledge bits, command and payload |
| `Protocol.LittleEndianIs` | src/robomaster_sim/src/protocol.cpp:129 | a checksum is written as its lowest byte and the byte above |
| `Discovery.Encrypt` | src/robomaster_sim/src/protocol.cpp:70-78 | the loop applies the running key of the specification to every byte |
| `Discovery.EncryptUndoesItself` | src/robomaster_sim/src/protocol.cpp:70-78 | scrambling twice with the same starting key gives the data back |
| `Discovery.EncryptedByte` | src/robomaster_sim/src/protocol.cpp:70-78 | for any sequence of keys in which each is the last plus seven, xor 178: every byte is xored with the lowest byte of its key |
| `Discovery.DiscoveryMessage` | src/robomaster_sim/src/protocol.cpp:81-105 | the buffer built field by field is the scrambled 24-byte layout, big-endian magic number first, application id cut or padded to eight bytes |
| `Discovery.AnnouncementLayout` | src/robomaster_sim/src/protocol.cpp:86-103 | what stands at every index before scrambling: two magic bytes, zeros, the pairing flag, address, MAC, and the zero-filled application id |
| `Discovery.AnnouncementTells` | src/robomaster_sim/src/protocol.cpp:81-105 | two announcements are equal exactly if pairing flag, address, MAC and the first eight bytes of the application id are |
| `Frontier.CollectFrontier` | src/escape_room/escape_room/nodes/explorer/frontier.py:24-32 | the scan finds exactly the interior free cells with an unknown 4-neighbour |
| `Frontier.FrontierCellIff` | src/escape_room/escape_room/nodes/explorer/frontier.py:24-32 | in terms of the map data, at index row * width + column: the cells off the border that hold 0 while the one before, after, above or below holds -1 |
| `Frontier.FloodFill` | src/escape_room/escape_room/nodes/explorer/frontier.py:39-52 | the stack-driven fill terminates and lists exactly the 8-connected component of the seed, every cell once, and marks it visited |
| `Frontier.VisitNeighbours` | src/escape_room/escape_room/nodes/explorer/frontier.py:45-52 | exactly the unvisited 8-neighbours on the frontier are marked and pushed, each once |
| `Frontier.ComputeFrontiers` | src/escape_room/escape_room/nodes/explorer/frontier.py:10-57 | whatever order the set is iterated in, the points returned are exactly those p for which some component of n >= 20 cells has (p.x - origin) * n = (sum of columns + n/2) * resolution, and likewise in y with the rows; there is one for each such component |
| `Frontier.ComponentsCover` | src/escape_room/escape_room/nodes/explorer/frontier.py:13-15 | every frontier cell lies in one of the components |
| `Frontier.ComponentsApart` | src/escape_room/escape_room/nodes/explorer/frontier.py:13-15 | components that share a cell, or hold cells whose squared distance is at most 2, are the same |
| `Frontier.ComponentConnected` | src/escape_room/escape_room/nodes/explorer/frontier.py:13-15 | any two cells of a component are joined by a path of touching cells inside it |
| `Frontier.ComponentUnsplit` | src/escape_room/escape_room/nodes/explorer/frontier.py:45-52 | a component cannot be cut in two without separating cells whose squared distance is at most 2 |
| `Frontier.SumsOfDistinct` | src/escape_room/escape_room/nodes/explorer/frontier.py:54-55 | the sums and size used for a centroid depend only on the set of cells, not on the order they were found in |
| `Frontier.CentroidCount` | src/escape_room/escape_room/nodes/explorer/frontier.py:53-57 | there is one point per component of at least 20 cells |
| `Frontier.CentroidInside` | src/escape_room/escape_room/nodes/explorer/frontier.py:53-56 | the centroid of every component lies over the interior cells of the map |
| `Frontier.PointOfLarge` | src/escape_room/escape_room/nodes/explorer/frontier.py:53-57 | the points returned for a set of components are exactly the centroids of those with at least 20 cells |
| `Frontier.ReturnedIff` | src/escape_room/escape_room/nodes/explorer/frontier.py:53-57 | the same in terms of the sums of rows and columns, with the half cell to the centres, and the literal size 20 |
| `Frontier.ReturnedInside` | src/escape_room/escape_room/nodes/explorer/frontier.py:10-57 | every point that is returned lies over the interior cells of the map |
| `Walls.SegmentsAroundDoors` | src/escape_room/scripts/build_scene.py:35-63 | the cursor loop over the sorted doors returns the specified cut, or the error of the first door that fails |
| `Walls.CutWallSucceedsIff` | src/escape_room/scripts/build_scene.py:46-58 | cutting succeeds exactly if every door lies inside the wall without touching its left end and any two doors have solid wall between them |
| `Walls.CutSucceedsIff` | src/escape_room/scripts/build_scene.py:45-60 | for doors in order, of any widths, cutting succeeds exactly if each lies in the wall and starts beyond the end of the one before |
| `Walls.PieceBetweenDoors` | src/escape_room/scripts/build_scene.py:59-62 | pieces have positive length, each starts where a door ends (or at the left end) and ends where the next door starts (or at the right end) |
| `Walls.PieceCount` | src/escape_room/scripts/build_scene.py:44-63 | there is one piece in front of every door, and one after the last unless it touches the right end |
| `Walls.FirstFaultReported` | src/escape_room/scripts/build_scene.py:45-58 | the first door in order that does not fit is reported: that it exceeds the wall if it does, and otherwise that it overlaps |
| `Walls.SortedStable` | src/escape_room/scripts/build_scene.py:43 | sorting is stable: doors with equal left edges stay in the order listed |
| `Walls.WallTiled` | src/escape_room/scripts/build_scene.py:35-63 | every inner point of the wall is in a piece or in an opening and never in both; the lengths add up to the wall |
| `Walls.DoorOrderIrrelevant` | src/escape_room/scripts/build_scene.py:43 | the order in which doors are listed does not matter, to success or to the pieces |
| `Room.BuildWalls` | src/escape_room/scripts/build_scene.py:102-135 | the nested loops over sides and pieces build the specified boxes, and stop at the first wall that cannot be cut |
| `Room.BuiltIff` | src/escape_room/scripts/build_scene.py:102-119 | the walls are built exactly if each of them can be cut; otherwise the fault of the first that cannot is reported |
| `Room.DoorsOfNext` | src/escape_room/scripts/build_scene.py:111-115 | a wall is cut for the doors of its own side, each once and in the order listed |
| `Room.PanelKnownIff` | src/escape_room/scripts/build_scene.py:150-163 | a door is refused exactly if its side is not one of 0 to 3 |
| `Room.PanelFillsOpening` | src/escape_room/scripts/build_scene.py:138-170 | a door panel covers exactly its opening along the wall and the thickness of the wall across it |
| `Room.WallSolid` | src/escape_room/scripts/build_scene.py:102-170 | pieces and panels of one wall together fill its slab and nothing else |
| `Room.SlabsAreRing` | src/escape_room/scripts/build_scene.py:66-78 | the four slabs are exactly the ring around the room, corners included |
| `Room.RoomClosed` | src/escape_room/scripts/build_scene.py:66-170 | if the walls can be built, walls and door panels together cover exactly the ring around the room |
| `ImageScan.ScanRects` | src/robomaster_sim/coppeliaSim_plugin/coppeliasim_robot.cpp:395-419 | the double loop over the buffer leaves, for every selected class and narrowed root, the tight rectangle of exactly the pixels that show them, and no other entry |
| `ImageScan.HandleBytes` | src/robomaster_sim/coppeliaSim_plugin/coppeliasim_robot.cpp:403 | the handle of a pixel is the number its three bytes hold, the lowest first |
| `ImageScan.SelectedBits` | src/robomaster_sim/coppeliaSim_plugin/coppeliasim_robot.cpp:396-400 | class k is selected by bit k of the mask, and no class above 7 is |
| `ImageScan.DetectBoundingBoxes` | src/robomaster_sim/coppeliaSim_plugin/coppeliasim_robot.cpp:391-428 | a selected class has a box for a narrowed root exactly if some pixel shows them, and it is that of the tight rectangle of exactly those pixels |
| `ImageScan.TightUnique` | src/robomaster_sim/coppeliaSim_plugin/coppeliasim_robot.cpp:370-380 | at most one rectangle is tight for a set of pixels: all inside, every side touched |
| `ImageScan.TightUpdate` | src/robomaster_sim/coppeliaSim_plugin/coppeliasim_robot.cpp:375-380 | updating a tight rectangle with a pixel gives the tight rectangle of the larger set |
| `ImageScan.PerRootIff` | src/robomaster_sim/coppeliaSim_plugin/coppeliasim_robot.cpp:405-414 | there is exactly one tight entry per visible root of a selected class if and only if all those roots are below 256; larger ones are narrowed to 8 bits |
| `ImageScan.RootsMerge` | src/robomaster_sim/coppeliaSim_plugin/coppeliasim_robot.cpp:406-413 | a concrete scene in which two roots that agree in the low byte share one entry around both |
| `ImageScan.BoxCorners` | src/robomaster_sim/coppeliaSim_plugin/coppeliasim_robot.cpp:382-387 | a box has the size of its pixel rectangle but sits half a pixel further left and up |
| `ImageScan.BoxInsideIff` | src/robomaster_sim/coppeliaSim_plugin/coppeliasim_robot.cpp:382-387 | a box stays inside the image exactly if its rectangle touches neither the first column nor the first row |
| `ImageScan.BoxOverEdge` | src/robomaster_sim/coppeliaSim_plugin/coppeliasim_robot.cpp:382-387 | the box of an object that fills a one-pixel image is centred on its upper left corner |
| `Topic.Topic.Start` | src/robomaster_sim/src/topic.cpp:18-24 | a started topic is active with deadline zero |
| `Topic.Topic.DoStep` | src/robomaster_sim/src/topic.cpp:6-16 | a step takes the time off the deadline and publishes once per period until the deadline lies ahead; the catch-up loop terminates |
| `Topic.CatchUpCount` | src/robomaster_sim/src/topic.cpp:11-15 | catching up publishes exactly as often as the deadline is moved by a period, and leaves it ahead by at most one period |
| `Topic.DeadlineAfter` | src/robomaster_sim/src/topic.cpp:6-24 | after any steps the deadline is the publications so far times the period, less the time elapsed, and lies in (0, 1/f] |
| `Topic.PublicationCount` | src/robomaster_sim/src/topic.cpp:6-24 | a started topic at frequency f has published floor(T*f)+1 times after steps that sum to T, however T is split |
| `Topic.StoppedRests` | src/robomaster_sim/src/topic.cpp:6-30 | a stopped topic publishes nothing and keeps its deadline, over any steps |
| `Topic.ZeroFrequencyPublishesOnce` | src/robomaster_sim/src/topic.cpp:11-15 | at frequency zero a topic publishes once and never again |
| `Commands.KeyTells` | src/robomaster_sim/include/utils.hpp:386 | keys of subscriptions differ whenever node or message do; their low byte is the message, the rest the node |
| `Commands.StepPublishers` | src/robomaster_sim/src/command.cpp:166-171 | every subscription is stepped exactly once, in any order |
| `Commands.Commands.CreatePublisher` | src/robomaster_sim/src/command.cpp:149-159 | an unknown subject changes nothing; otherwise the key gets a topic only if it had none, and the topic is restarted |
| `Commands.Commands.StopPublisher` | src/robomaster_sim/src/command.cpp:161-164 | afterwards the key has no subscription, and every other subscription and field is unchanged |
| `Commands.Commands.AddSubscriberNode` | src/robomaster_sim/src/command.cpp:113-123 | the client counts as connected from now on and its hit events are reported |
| `Commands.Commands.SetEnableSdk` | src/robomaster_sim/src/command.cpp:135-147 | leaving the SDK mode drops events and subscriptions and nothing else |
| `Commands.Commands.DoStep` | src/robomaster_sim/src/command.cpp:166-187 | subscriptions are stepped before the heartbeat is checked against the new time |
| `Commands.Commands.Unconnect` | src/robomaster_sim/src/command.cpp:195-204 | streaming, events and subscriptions end with the connection |
| `Commands.AliveAlways` | src/robomaster_sim/src/command.cpp:180-186 | between events of any run, the last heartbeat of a connected client is at most 3 s old |
| `Commands.SilenceDisconnectsIff` | src/robomaster_sim/src/command.cpp:180-186 | a silent client is disconnected exactly when its steps since the last heartbeat sum to more than 3 s, however they are split |
| `Commands.LossClears` | src/robomaster_sim/src/command.cpp:195-204 | whenever a client is lost, it was reset or overdue, and nothing of its subscriptions, events and stream is left |
| `Commands.FirstSubjectKept` | src/robomaster_sim/src/command.cpp:149-159 | a key keeps its first subject and frequency, whatever is requested for it, until it is deleted or the client is lost |
| `Commands.SubscriptionPublishes` | src/robomaster_sim/src/command.cpp:149-171 | after a request for a key, new or renewed, its subscription publishes floor(T*f)+1 times in time T at the frequency f it keeps, whatever else the client does until it asks for the key again |
| `Commands.SubscribedIff` | src/robomaster_sim/src/command.cpp:149-204 | over every run: a key is subscribed exactly if it was requested with a known subject, or subscribed from the start, and since then was not deleted, the SDK not left, the client not reset, and no step found the last heartbeat more than 3 s old |
| `Commands.DeletionHolds` | src/robomaster_sim/src/command.cpp:161-164 | a deletion removes the subscription and nothing else, and over every run without a new request for the key it stays away |
| `Commands.RecordedAfter` | src/robomaster_sim/src/command.cpp:149-159 | what any event leaves recorded for a key: the subject and frequency first asked for, a topic restarted by a request, and no change by anything but requests and steps |
| `Commands.RestAfter` | src/robomaster_sim/src/command.cpp:113-204 | what any event does to clock, heartbeat, connection, stream and each kind of event report |
| `Arm.AlwaysSafe` | src/robomaster_sim/src/robot/arm.cpp:37-61 | every request is mapped into the admissible polygon of the two motors |
| `Arm.SafeUnchangedIff` | src/robomaster_sim/src/robot/arm.cpp:37-61 | a request is left unchanged exactly if it is admissible |
| `Arm.Idempotent` | src/robomaster_sim/src/robot/arm.cpp:37-61 | projecting twice is projecting once |
| `Arm.RequestGoes` | src/robomaster_sim/src/robot/arm.cpp:37-61 | where a request goes: the motors cut to their limits, and then, exactly if their difference is off its band, moved against each other by the excess over the square root of two |
| `Arm.NearestIff` | src/robomaster_sim/src/robot/arm.cpp:46-59 | the result is the nearest admissible point, as the comments promise, exactly if the clamped request crossed neither line: each coordinate is shifted by the whole distance |
| `Arm.NearestMissed` | src/robomaster_sim/src/robot/arm.cpp:46-59 | a concrete request for which the result is not the nearest admissible point |
| `ArmMotors.ArmDriver.LimitMotorAngles` | src/robomaster_sim/src/robot/arm.cpp:76-78 | the current angles are replaced by their projection |
| `ArmMotors.ArmDriver.LimitMotors` | src/robomaster_sim/src/robot/arm.cpp:80-89 | the intervals follow the angle of the other motor and the desired angles are projected |
| `ArmMotors.ArmDriver.DoStep` | src/robomaster_sim/src/dummy_robot.cpp:21-32 | both motors move within their limits, are projected, and then have their speed measured |
| `ArmMotors.LimitsContain` | src/robomaster_sim/src/robot/arm.cpp:82-85 | intervals computed from admissible angles contain those angles |
| `ArmMotors.LimitsExact` | src/robomaster_sim/src/robot/arm.cpp:80-85 | the interval of a motor is exactly the set of angles that are admissible with the other motor where it is |
| `ArmMotors.MovedIs` | src/robomaster_sim/src/dummy_robot.cpp:21-32 | a step takes each motor where its target speed leads, up to its limits, projects the pair, and measures the speeds that lead from the old angles to the new ones; nothing else changes |
| `ArmMotors.DesiredIs` | src/robomaster_sim/include/robot/servo.hpp:31-59 | what a motor asks for: its desired angle, or in speed mode the angle its desired speed leads to, as far as speed limit and interval allow; disabled, where it is |
| `ArmMotors.OutsideReturns` | src/robomaster_sim/include/robot/servo.hpp:61-72 | a motor off its interval that is not asked to turn towards it is sent back to its nearer end, as fast as its speed allows |
| `ArmMotors.RequestSets` | src/robomaster_sim/include/robot/servo.hpp:22-29 | a request sets for each motor on its own the value it is about, and nothing else |
| `ArmMotors.AimSafe` | src/robomaster_sim/src/robot/arm.cpp:86-88 | the desired values set for the motors, before speed limits are applied, are those of the projection of the pair asked for, and so admissible, unless a motor in speed mode is disabled and keeps its own |
| `ArmMotors.HeadingSafeIff` | src/robomaster_sim/include/robot/servo.hpp:31-59 | with the speed limit, the pair of angles the motors are sent to is admissible exactly if both are in the same mode, or some angle that the one in speed mode can reach goes with the angle picked for the other |
| `ArmMotors.SameModeHeadingSafe` | src/robomaster_sim/src/robot/arm.cpp:80-89 | motors in the same mode are always sent to an admissible pair, at any speed limits |
| `ArmMotors.SlowMotorLags` | src/robomaster_sim/include/robot/servo.hpp:31-59 | a concrete state in which a slow motor in speed mode does not keep up, and the pair is not admissible |
| `ArmMotors.SpeedReaches` | src/robomaster_sim/include/robot/servo.hpp:31-59 | a motor in speed mode is sent as close to the angle picked for it as its speed and interval allow, and stays if disabled |
| `ArmMotors.ArmAlwaysSecure` | src/robomaster_sim/src/robot/arm.cpp:76-89 | over every run of steps, control and requests the angles stay in the polygon, no interval is empty, and intervals just computed contain the angles |
| `ArmMotors.ArmSecureFromStart` | src/robomaster_sim/include/robot/servo.hpp:10-19 | the same over every run from freshly built motors at angle zero |
| `RealMath.NormalizeTurns` | src/robomaster_sim/include/utils.hpp:77-82 | normalizing lands in [-pi, pi) and takes away whole turns |
| `RealMath.NormalizeFixes` | src/robomaster_sim/include/utils.hpp:77-82 | an angle in [-pi, pi) is left alone |
| `RealMath.NormalizeShrinks` | src/robomaster_sim/include/utils.hpp:77-82 | normalizing never makes an angle larger |
| `RealMath.NormalizeNearest` | src/robomaster_sim/include/utils.hpp:77-82 | no angle a whole number of turns away is nearer to zero than the normalized one |
| `Gimbal.Gimbal.FixedAngles` | src/robomaster_sim/include/robot/gimbal.hpp:138-163 | on either axis: result minus chassis is exactly the goal for a chassis-frame goal; minus the servo too if yaw is relative to the gimbal; and otherwise the turn from where the servo is lies in [-pi, pi) a whole number of turns off the gap, or one turn further if the servo would pass its limit of 250, or -30 and 25, degrees |
| `Gimbal.YawGoalReached` | src/robomaster_sim/include/robot/gimbal.hpp:146-160 | a fixed-frame yaw goal is met up to whole turns by an angle the yaw servo can reach, from every reachable position |
| `Gimbal.ReachedIffReachable` | src/robomaster_sim/include/robot/gimbal.hpp:154-158 | one correction by a whole turn reaches the limits exactly if any angle congruent to the goal does |
| `Gimbal.ShortestReachableTurn` | src/robomaster_sim/include/robot/gimbal.hpp:147-158 | no reachable angle congruent to the goal needs a smaller turn |
| `Gimbal.YawFrameHonoured` | src/robomaster_sim/include/robot/gimbal.hpp:138-163 | a yaw goal is read in its own frame, up to whole turns, for every combination of frames |
| `Gimbal.PitchFrameHonouredIff` | src/robomaster_sim/include/robot/gimbal.hpp:141-160 | over all nine pairs of frames: a pitch goal is read in its own frame, up to whole turns, exactly if it is relative to the chassis, or yaw and pitch agree on being relative to the gimbal, or the pitch of the gimbal in the fixed frame is zero up to whole turns |
| `Gimbal.FixedPitchKeptIff` | src/robomaster_sim/include/robot/gimbal.hpp:144-145 | a fixed-frame pitch goal combined with a gimbal-frame yaw goal is left unchanged exactly if the pitch of the gimbal is zero |
| `Gimbal.PitchGoalsMissed` | src/robomaster_sim/include/robot/gimbal.hpp:144-159 | a concrete pose of the gimbal for which both kinds of mixed goals are missed |
| `Gimbal.GimbalPitchReadAsFixed` | src/robomaster_sim/include/robot/gimbal.hpp:144-159 | a gimbal-frame pitch goal is read as a fixed-frame one unless yaw is relative to the gimbal too, and is then met, up to whole turns, exactly if the gimbal is level |
| `Geometry.TwistRoundTrip` | src/robomaster_sim/src/robot/chassis.cpp:3-25 | driving the wheels for a twist moves the body with that twist |
| `Geometry.WheelsRoundTripIff` | src/robomaster_sim/src/robot/chassis.cpp:3-25 | wheel speeds are those of their own twist exactly if no wheel has to slip |
| `Geometry.WheelSpeedsIs` | src/robomaster_sim/src/robot/chassis.cpp:3-11 | the four rim speeds asked for, in terms of the motion of the body |
| `Geometry.SlipIsShared` | src/robomaster_sim/src/robot/chassis.cpp:13-25 | what the measured motion leaves of any wheel speeds is the same at all wheels, forwards in front and backwards behind |
| `Geometry.TwistFitsBest` | src/robomaster_sim/src/robot/chassis.cpp:13-25 | of all motions, the one measured explains the wheel speeds best in the sense of least squares |
| `Geometry.ComposeThenRelative` | src/robomaster_sim/include/utils.hpp:185-206 | composing with a pose and looking from it gives the other pose back |
| `Geometry.RelativeIsDifference` | src/robomaster_sim/include/utils.hpp:190-206 | a pose seen from another is their difference turned back |
| `Geometry.RelativeDistance` | src/robomaster_sim/include/utils.hpp:195-206 | distances do not depend on the frame they are seen from |
| `Robot.Chassis.SetTargetVelocity` | src/robomaster_sim/src/robot/chassis.cpp:34-37 | the desired wheel speeds are those of the twist |
| `Robot.Chassis.Stop` | src/robomaster_sim/src/robot/chassis.cpp:39-42 | the desired wheel speeds are zero |
| `Robot.Chassis.UpdateOdometry` | src/robomaster_sim/src/robot/chassis.cpp:44-51 | the pose is advanced by the twist of the measured wheel speeds, turned by the heading before the step |
| `Robot.Chassis.UpdateAttitude` | src/robomaster_sim/src/robot/chassis.cpp:53-63 | the gyroscope advances the heading and overrides the odometry's |
| `Robot.Robot.EngageWheelMotors` | src/robomaster_sim/include/robot/robot.hpp:73-82 | only a change has an effect, and engaging discards the desired wheel speeds |
| `Robot.Robot.ReadChassis` | src/robomaster_sim/src/robot/robot.cpp:54-60 | the sensors are integrated over the step that has ended |
| `Robot.Robot.RunSlot` | src/robomaster_sim/src/robot/robot.cpp:176-182 | the action takes one step, reports, and leaves its slot with its final state if it is done; what a step of each kind of action achieves is in `TimedActions` and `MoveConvergence` |
| `Robot.Robot.ControlChassis` | src/robomaster_sim/src/robot/robot.cpp:62-68 | wheel targets are forwarded only when engaged and changed |
| `Robot.Robot.ControlGripper` | src/robomaster_sim/src/robot/robot.cpp:195-199 | the short-circuit test takes over the new status, or else the new power, and forwards both targets |
| `Robot.Robot.DoStep` | src/robomaster_sim/src/robot/robot.cpp:127-205 | sensors, then the action slots in order, then wheels and gripper |
| `Robot.Robot.DoDummyStep` | src/robomaster_sim/src/dummy_robot.cpp:17-72 | the simulated robot reads back what it was last told |
| `Robot.Robot.SubmitAction` | src/robomaster_sim/src/robot/robot.cpp:294-362 | an action is accepted exactly if its module is there and its slot is free, and then starts |
| `RobotRuns.SlotProtocol` | src/robomaster_sim/src/robot/robot.cpp:173-183 | over every run a slot holds at most one action, live and of its kind; under every action id there are as many final reports as actions that left the slot, each the last report of its action; every accepted action ended once or is still there |
| `RobotRuns.SlotsAlwaysSound` | src/robomaster_sim/include/action.hpp:21-28 | the log of accepted, reported and ended actions follows the protocol of its slot over every run |
| `RobotRuns.CountsOfUnbroken` | src/robomaster_sim/src/robot/robot.cpp:173-183 | a log that follows the protocol has as many ends as accepted actions, but for the live one |
| `RobotRuns.FinalsOfUnbroken` | src/robomaster_sim/include/action.hpp:21-28 | under every id it has as many final reports as accepted actions, but for the live one |
| `RobotRuns.ReportedState` | src/robomaster_sim/include/robot/robot.hpp:190-198 | the reported state is undefined before the first accepted action, live while one is live, and success from its end to the next one |
| `RobotRuns.BusySubmitIgnored` | src/robomaster_sim/src/robot/robot.cpp:294-303 | a request changes nothing exactly if the module is missing or the slot is busy |
| `Reports.StepReports` | src/robomaster_sim/include/action.hpp:21-28 | in a step that an action survives, it reports once if its deadline has passed, and no other slot reports for it |
| `Reports.RunningReports` | src/robomaster_sim/include/action.hpp:21-28 | an action still in its slot after time T has reported floor(T*f)+1 times if all steps are shorter than 1/f, however T is split, and exactly once per step if none is: the deadline is tested with an if |
| `SlotSteps.StepOfSlot` | src/robomaster_sim/src/robot/robot.cpp:173-183 | a step of the robot is, for each busy slot, one step of its action, whatever is in the other slots |
| `SlotSteps.StepOfIdleSlot` | src/robomaster_sim/src/robot/robot.cpp:173-183 | a step leaves an idle slot alone |
| `SlotSteps.StepOfChassis` | src/robomaster_sim/src/robot/action.cpp:34-36 | only a move steers the chassis |
| `TimedActions.SoundDuration` | src/robomaster_sim/src/robot/action.cpp:75-88 | a sound with n plays at constant step dt is live for exactly 1 + n*(floor(3/dt)+1) steps, starts its plays at every floor(3/dt)+1 steps, and succeeds |
| `TimedActions.ServoDuration` | src/robomaster_sim/src/robot/action.cpp:90-112 | a servo move is live after k steps exactly if k < floor(5/dt)+2 and no step found the servo within 0.005 rad; otherwise it has succeeded |
| `TimedActions.ArmMoveEndsIff` | src/robomaster_sim/src/robot/action.cpp:49-73 | over every run: a move of the arm is live exactly if no step since it was accepted has found the arm within 0.005 of its goal, and has succeeded otherwise |
| `TimedActions.GimbalMoveEndsIff` | src/robomaster_sim/src/robot/action.cpp:114-141 | over every run: a move of the gimbal is live exactly if no step since it was accepted has found the gimbal within 0.02 rad of its goal, and has succeeded otherwise |
| `Forwarding.TargetsAlwaysForwarded` | src/robomaster_sim/include/utils.hpp:25-38 | over every run the targets are what was last forwarded |
| `Forwarding.WheelsUpToDate` | src/robomaster_sim/src/robot/robot.cpp:62-68 | after every step with engaged motors the last forwarded wheel target is the desired one |
| `Forwarding.DisengagedCommandsDropped` | src/robomaster_sim/include/robot/robot.hpp:73-82 | leaving out the wheel commands given while disengaged changes nothing that is ever forwarded |
| `Forwarding.GripperAfterOneStepIff` | src/robomaster_sim/src/robot/robot.cpp:195-199 | one step brings the gripper up to date exactly unless status and power both changed |
| `Forwarding.FirstPowerLags` | src/robomaster_sim/src/robot/robot.cpp:195-199 | a new robot asked to close at full power first closes at the power it was built with |
| `Forwarding.GripperAfterTwoSteps` | src/robomaster_sim/src/robot/robot.cpp:195-199 | without a new command two steps bring the gripper up to date |
| `Effects.ReadIs` | src/robomaster_sim/src/robot/chassis.cpp:44-63 | the heading comes from the gyroscope alone, at any rate, and the position moves by the wheels' motion turned by the heading before the step; nothing else of the chassis changes but what was measured |
| `Effects.RequestSets` | src/robomaster_sim/include/robot/robot.hpp:73-82 | a request sets the desired wheel speeds, or the gripper's status and power, and nothing else; engaging anew asks the wheels to stand still |
| `Effects.StepForwards` | src/robomaster_sim/src/robot/robot.cpp:127-205 | what a step adds to the log: reports slot by slot, then the desired wheel speeds exactly if engaged and changed or never set, then the gripper's command exactly if changed or never set |
| `Effects.WheelsNeverRepeated` | src/robomaster_sim/include/utils.hpp:25-38 | over every run from a new robot, no wheel command is forwarded twice in a row |
| `Effects.GripperForwardedTwice` | src/robomaster_sim/src/robot/robot.cpp:195-199 | the gripper's command is: a new robot forwards the same one in each of its first two steps |
| `MoveConvergence.SteeringAlongGap` | src/robomaster_sim/src/robot/action.cpp:24-27 | the limited velocity, turned into the odometry frame, points straight at the goal |
| `MoveConvergence.MovedErrors` | src/robomaster_sim/src/dummy_robot.cpp:17-19 | moving as told for dt <= 0.5 s shrinks the distance by exactly min(dist*dt/tau, v*dt) along its direction, and the heading error by its own minimum |
| `MoveConvergence.LoopStep` | src/robomaster_sim/src/robot/action.cpp:11-36 | one step of the closed loop shrinks both errors so and then either follows on or has arrived |
| `MoveConvergence.MoveStarts` | src/robomaster_sim/src/robot/action.cpp:3-9 | whatever the robot was doing, the first step fixes the goal at the distance and heading asked for |
| `MoveConvergence.ArrivedStays` | src/robomaster_sim/src/robot/action.cpp:19-23 | a robot that has arrived stays at its goal |
| `MoveConvergence.NearIff` | src/robomaster_sim/src/robot/action.cpp:19-20 | a robot counts as near its goal exactly if its distance and the angle left to turn, up to whole turns, add up to less than 0.01 |
| `MoveConvergence.ProgressAlways` | src/robomaster_sim/src/robot/action.cpp:3-37 | over every run of steps and requests to other modules both errors are down by the steps taken, or small, or the robot has arrived |
| `MoveConvergence.MoveSucceeds` | src/robomaster_sim/src/robot/action.cpp:3-37 | a move on the simulated robot succeeds within an explicit number of steps computed from its distance, heading, speed limits and shortest step, and the robot stands at its goal |
| `NavClient.NavClient.Send` | src/escape_room/escape_room/nodes/explorer/nav_client.py:36-52 | an unavailable server changes nothing; otherwise the goal becomes active and the earlier outcome is forgotten |
| `NavClient.NavClient.Cancel` | src/escape_room/escape_room/nodes/explorer/nav_client.py:54-60 | only a tracked goal is asked to stop; activity, tracking and success end in any case |
| `NavClient.NavClient.OnGoalAccepted` | src/escape_room/escape_room/nodes/explorer/nav_client.py:62-69 | a refusal ends the activity; an acceptance is tracked whatever the client is doing |
| `NavClient.NavClient.OnNavResult` | src/escape_room/escape_room/nodes/explorer/nav_client.py:71-79 | the result of any goal decides success and ends activity and tracking; the warning is left out only for success and for a cancellation that was asked for |
| `NavClient.FlagsNext` | src/escape_room/escape_room/nodes/explorer/nav_client.py:23-79 | every call and callback keeps the flags true: active since a send, succeeded since a successful result, tracking since an acceptance, each until the next entry that ends it |
| `NavClient.TracksNext` | src/escape_room/escape_room/nodes/explorer/nav_client.py:36-79 | with a server that answers what it was sent, the tracked goal is always running and was not asked to stop |
| `NavClient.CancelStopsAllIff` | src/escape_room/escape_room/nodes/explorer/nav_client.py:54-60 | after a cancel no open goal is left that was not asked to stop, exactly if the tracked goal was the only such goal; a goal waiting for its answer is always missed |
| `NavClient.ResultsOfLatestIff` | src/escape_room/escape_room/nodes/explorer/nav_client.py:71-79 | whatever the server answers until the next send, every result is that of the latest goal, exactly if no other goal is open |
| `NavClient.AgreesNext` | src/escape_room/escape_room/nodes/explorer/nav_client.py:36-79 | agreement of client and server survives everything but sending or cancelling while a goal is open |
| `NavClient.SuccessIsRecent` | src/escape_room/escape_room/nodes/explorer/nav_client.py:27-30 | a client that has succeeded was told so since its last cancel |
| `Mission.Nearest` | src/escape_room/escape_room/nodes/explorer_node.py:227-228 | the chosen frontier is one of them and none is closer |
| `Mission.ExplorerNode.OnTarget` | src/escape_room/escape_room/nodes/explorer_node.py:162-177 | a landmark that moved by at most 0.1 is left where it was |
| `Mission.ExplorerNode.Tick` | src/escape_room/escape_room/nodes/explorer_node.py:189-196 | nothing happens until everything is up; then exactly the handler of the mode runs |
| `Mission.ExplorerNode.Exploration` | src/escape_room/escape_room/nodes/explorer_node.py:208-231 | with all landmarks the key is next; otherwise an idle client is sent to the nearest frontier |
| `Mission.ExplorerNode.GoToTheKey` | src/escape_room/escape_room/nodes/explorer_node.py:233-247 | an active goal is waited for, a failed one sent again, and success stops the robot and opens the jaws |
| `Mission.ExplorerNode.GoToThePlate` | src/escape_room/escape_room/nodes/explorer_node.py:249-257 | likewise for the plate |
| `Mission.ExplorerNode.OpenForPickup` | src/escape_room/escape_room/nodes/explorer_node.py:264-269 | the robot stands still until the jaws are open or the time is up |
| `Mission.ExplorerNode.CloseJaws` | src/escape_room/escape_room/nodes/explorer_node.py:271-279 | closed jaws hide the cube and send the robot to the plate |
| `Mission.ExplorerNode.AlignDrop` | src/escape_room/escape_room/nodes/explorer_node.py:281-308 | the robot turns, drives or drops, in this order of precedence |
| `Mission.ExplorerNode.OpenForDrop` | src/escape_room/escape_room/nodes/explorer_node.py:310-320 | open jaws and a known start pose show the cube and start the retreat |
| `Mission.ExplorerNode.BackUp` | src/escape_room/escape_room/nodes/explorer_node.py:322-338 | the new state is that of the specification of the retreat, which `MissionTicks.BackUpTick` and `MissionTicks.RetreatRun` describe |
| `Mission.ExplorerNode.AlignPickup` | src/escape_room/escape_room/nodes/explorer_node.py:340-376 | without a fresh detection the robot waits; otherwise it turns, freezes the remaining distance, or drives |
| `Mission.ExplorerNode.Lunge` | src/escape_room/escape_room/nodes/explorer_node.py:378-395 | the last stretch ends with closing jaws at the frozen distance |
| `Mission.ExplorerNode.Drive` | src/escape_room/escape_room/nodes/explorer_node.py:402-409 | one velocity is published, clamped as the flags say |
| `Mission.ExplorerNode.Transition` | src/escape_room/escape_room/nodes/explorer_node.py:419-423 | the client is cancelled and the mode changes |
| `MissionRuns.AlwaysSound` | src/escape_room/escape_room/nodes/explorer_node.py:189-439 | the invariant of the mission holds over every interleaving of ticks, detections and callbacks |
| `MissionRuns.NeverFails` | src/escape_room/escape_room/nodes/explorer_node.py:208-439 | no tick ever reads a missing map, landmark or start pose, whatever is unavailable and whenever; outside exploration all three landmarks are known |
| `MissionRuns.CarriedMeansHidden` | src/escape_room/escape_room/nodes/explorer_node.py:233-320 | in every run the cube is hidden exactly in GO_TO_PLATE, DROP_ALIGN and DROP_OPEN, and the jaws have been told exactly the part of open-close-open that belongs to the mode |
| `MissionRuns.AdvanceByOne` | src/escape_room/escape_room/nodes/explorer_node.py:419-423 | one event takes the mission at most one mode along the chain, and only a tick does |
| `MissionRuns.NeverBack` | src/escape_room/escape_room/nodes/explorer_node.py:4-6 | over every run the mission never goes back along the chain |
| `MissionRuns.LegsSucceeded` | src/escape_room/escape_room/nodes/explorer_node.py:233-257 | in every run a driving leg is left only after a success was reported during it |
| `MissionRuns.DrivesAlways` | src/escape_room/escape_room/nodes/explorer_node.py:378-409 | in every run, every event: the node moves the robot only in PICKUP_ALIGN, DROP_ALIGN and DROP_BACKUP, with no active goal before or after, and within both speed limits |
| `MissionGoals.TrustedRun` | src/escape_room/escape_room/nodes/explorer_node.py:208-257 | with a server that answers what it was sent, and exploration left only while no frontier is being driven to: only the latest goal is ever open, none while the node steers the robot itself, and each driving leg was ended by a goal sent during it |
| `MissionGoals.LeavingExploreIff` | src/escape_room/escape_room/nodes/explorer_node.py:208-213 | the tick that leaves exploration keeps client and server in agreement exactly if no frontier was being driven to |
| `MissionGoals.KeyLegOwnIff` | src/escape_room/escape_room/nodes/explorer_node.py:208-247 | whatever such a server does after exploration was left, the leg to the key ends with the success of a goal of its own, exactly if no frontier was being driven to when it was left |
| `MissionGoals.StalePickup` | src/escape_room/escape_room/nodes/explorer_node.py:208-247 | from every state that leaves exploration during a goal there is a lawful continuation in which that goal starts the pickup |
| `MissionGoals.TrustedFrom` | src/escape_room/escape_room/nodes/explorer_node.py:233-257 | once exploration was left in agreement, agreement and own successes last over every run |
| `MissionGoals.TracksAlways` | src/escape_room/escape_room/nodes/explorer/nav_client.py:54-60 | in every run with such a server a cancel finds the client tracking a running goal or none |
| `MissionGoals.HastyPickup` | src/escape_room/escape_room/nodes/explorer_node.py:208-247 | a concrete run in which the success of a frontier goal starts the pickup while the goal for the key is still unanswered: the comment that a transition cancels any running goal so that it cannot fire later does not hold |
| `MissionMoves.KeyGoalStandsOff` | src/escape_room/escape_room/nodes/explorer_node.py:425-436 | the goal for the key lies on the line from robot to cube at exactly the standoff distance and faces the cube |
| `MissionMoves.TargetsFollow` | src/escape_room/escape_room/nodes/explorer_node.py:162-177 | in every run a landmark is known exactly if it was reported, and remembered within 0.1 of its last report |
| `MissionMoves.AligningCloses` | src/escape_room/escape_room/nodes/explorer_node.py:348-376 | while aligning for the pickup every velocity turns towards the cube, on the spot beyond the tolerance, and otherwise moves to close the gap to the engage distance |
| `MissionMoves.DropAligningCloses` | src/escape_room/escape_room/nodes/explorer_node.py:285-308 | likewise towards the point from which the carried cube is over the plate |
| `MissionMoves.DropNearPlate` | src/escape_room/escape_room/nodes/explorer_node.py:281-308 | when the jaws are told to drop the cube, it is over the centre of the plate up to 3 cm along and the yaw tolerance across |
| `MissionMoves.DefaultDropNearPlate` | src/escape_room/escape_room/nodes/explorer_node.py:114-134 | with the declared parameters that is less than 3.5 cm from the centre |
| `MissionTicks.NotStartedTick` | src/escape_room/escape_room/nodes/explorer_node.py:189-206 | until server, map and pose are there a tick does nothing, and then only starts the mission |
| `MissionTicks.NearestIsFirst` | src/escape_room/escape_room/nodes/explorer_node.py:227-228 | the frontier chosen is the first of the nearest ones |
| `MissionTicks.ExploredTick` | src/escape_room/escape_room/nodes/explorer_node.py:208-213 | with all three landmarks known a tick cancels the goal, moves on, and sends the robot to the cube less the standoff, facing it, if its pose is known |
| `MissionTicks.ExploringTick` | src/escape_room/escape_room/nodes/explorer_node.py:214-231 | otherwise a tick waits for an active goal and for frontiers and pose, and then sends the robot to the first of the nearest frontiers, heading there; it fails exactly if no map has come |
| `MissionTicks.LandmarkSeen` | src/escape_room/escape_room/nodes/explorer_node.py:162-177 | a report places an unknown landmark, or one reported more than 0.1 away, and changes nothing else |
| `MissionTicks.Noted` | src/escape_room/escape_room/nodes/explorer_node.py:159-187 | what every other event between ticks leaves, and that it leaves all else alone |
| `MissionTicks.GoToKeyTick` | src/escape_room/escape_room/nodes/explorer_node.py:233-247 | the leg to the key: a tick waits, sends the goal for the key again, or stops, cancels, forgets any lunge and opens the jaws |
| `MissionTicks.GoToPlateTick` | src/escape_room/escape_room/nodes/explorer_node.py:249-257 | the leg to the plate: a tick waits, sends the robot to the plate again, or stops and cancels |
| `MissionTicks.PickupOpenTick` | src/escape_room/escape_room/nodes/explorer_node.py:264-269 | every tick halts the robot, and moves on exactly if the jaws report 1 or the time is up |
| `MissionTicks.PickupCloseTick` | src/escape_room/escape_room/nodes/explorer_node.py:271-279 | every tick halts the robot, and exactly if the jaws report 2 or the time is up hides the cube and sends the robot to the plate |
| `MissionTicks.DropOpenTick` | src/escape_room/escape_room/nodes/explorer_node.py:310-320 | every tick halts the robot, and exactly if the jaws report 1 or the time is up, and the odometry is known, shows the cube and keeps this start |
| `MissionTicks.BlindAlignTick` | src/escape_room/escape_room/nodes/explorer_node.py:340-351 | without a recent enough sighting a tick of the alignment does nothing |
| `MissionTicks.AlignTick` | src/escape_room/escape_room/nodes/explorer_node.py:340-376 | with one it turns on the spot, drives up, or begins the lunge for the range less engage distance and margin, with both speeds cut to their limits |
| `MissionTicks.LungeTick` | src/escape_room/escape_room/nodes/explorer_node.py:378-395 | a tick of the lunge drives forward at the parking speed, turning by half the bearing of the cube while it is seen, exactly while the odometry has covered less than the lunge distance, and then halts and closes the jaws |
| `MissionTicks.DropAlignTick` | src/escape_room/escape_room/nodes/explorer_node.py:281-308 | a tick turns to the plate on the spot, closes the gap, or within 3 cm of it halts and opens the jaws, by the plate's position seen from the robot |
| `MissionTicks.BackUpTick` | src/escape_room/escape_room/nodes/explorer_node.py:322-338 | a tick of the retreat commands minus the parking speed and no turn exactly while the odometry is nearer to the start than the retreat, and then halts and ends the mission |
| `MissionTicks.UnmeasuredTick` | src/escape_room/escape_room/nodes/explorer_node.py:281-338 | without the pose it is measured by no such tick does anything, nor does any tick after the end |
| `MissionTicks.RetreatRun` | src/escape_room/escape_room/nodes/explorer_node.py:322-338 | over every run: the retreat commands only straight back at the parking speed, once per tick that reads the odometry, until the first that finds it far enough, where it halts, ends, and is silent from then on |

## Left out

- Float rounding, infinities, NaN and overflow: exact reals; a period at frequency zero is modelled as never ending.
- Sockets, asio, threads, video, audio and FTP streaming: requests and steps are atomic events; streaming is a flag.
- CoppeliaSim, ROS 2, TF, Nav2 and OpenCV: their answers are parameters or events; the OpenCV variant of the box detection is not modelled.
- The command and subject message structs: payloads are byte sequences, and what a topic publishes is only counted.
- LEDs, camera mode, vision requests beyond their flag, blaster, UART, ToF readings and armor hits as data.
- Arm kinematics and the gimbal's `update_control`: the distances that end those two actions are inputs of a step.
- Percentages and predicted durations in action reports: which state is reported when is modelled, not the numbers in the message.
- Commands.Commands.DoStep: does not model the steps of the event objects (vision, armor, infrared, UART), which only send messages.
- Robot.Robot.DoStep: does not model camera, ToF and hit readings, the gimbal's controller, LEDs, servo forwarding and the publishers' callbacks, which share no state with the slots, wheels and gripper modelled.
- Robot.Robot.DoDummyStep: does not model the servos and the arm of the same step; they are in `ArmMotors.ArmDriver.DoStep`, on a state of their own.
- ArmMotors.HeadingSafeIff: says where the motors are sent, for positive time steps; whether a mechanism gets there is outside the code. `limit_motors` is compiled only with CHECK_SERVO_LIMITS.
- MissionGoals.KeyLegOwnIff: for ticks at which pose and server are available; otherwise no goal for the key is sent yet.
- Missing modules are one `permitted` flag of a request, which also stands for the servo bound check (`servo_id > size` lets an index equal to the size through); the robot modelled always has a gripper.
- The checksum tables are written as functions of the index, with the same entries.
- Controllable values, actions, motors and subscriptions are values inside the classes that own them; aliasing of servo pointers is not modelled.
- `std::clamp` with crossed bounds is undefined, so angular speed limits are non-negative by type, and so are the frequencies of action reports positive.
- Protocol.DecodeRequest: requires the receive buffer, not the received length, to have room for a header, as the fixed-size buffer of the server does; shorter buffers would be read beyond their end.
- Walls.CutWallSucceedsIff: for doors of non-negative width; the code does not check widths. `Walls.CutSucceedsIff` has the condition in sorted order for any widths.
- ImageScan.DetectBoundingBoxes: for images narrower and lower than 65536 pixels, since coordinates are stored in 16 bits.
- Frontier.ComputeFrontiers: requires as many cells as width times height, as an occupancy grid has.
- MoveConvergence.MoveSucceeds: for steps between a positive minimum and the time constant of 0.5 s and positive speed limits; longer steps overshoot, and a zero distance divides by zero, which the model reads as factor one.
- TimedActions.SoundDuration: for steps of one constant length.
- ArmMotors.ArmAlwaysSecure: for nonzero time steps, by which speeds are divided.
- MissionGoals.TrustedRun: says nothing about runs that leave exploration during a goal; what may then go wrong is `MissionGoals.StalePickup`.
- A tick reads the clock and each pose at most once on every path, so one reading per tick is exact; the time stamps of goals sent and the goal arrow for the display are left out.
- Log messages, and the throttling of them.
