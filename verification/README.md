# Formal model of the HaLow helicopter firmware

A Dafny model of the parts of the repository that carry its algorithms and protocols, with proofs
of what they guarantee. Floats are modelled as `real`; integer widths, truncation and wrap-around are
written out wherever they matter.

| files | what they model |
|---|---|
| `LinearAlgebra`, `Covariance`, `Joseph`, `Quaternion`, `AhrsModel`, `AhrsEstimate`, `AhrsDirection`, `AhrsMeaning`, `MatrixLoops`, `AhrsFilter` | the attitude filter: an extended Kalman filter with a 6x6 error covariance, a Cramer inversion and quaternion kinematics, as functions and as the in-place loops; what keeps its state sound, and what each step does to it |
| `RtpModel`, `RtpProofs`, `RtpAnnexB`, `RtpHostile`, `RtpObjects`, `RtpStream` | H.264 over RTP: Annex B splitting, single-NAL and FU-A packets (sections 5.6 and 5.8 of RFC 6184, header of section 5.1 of RFC 3550), and the viewer's reassembly, on faithful and on hostile networks |
| `MavlinkCrc`, `MavlinkModel`, `MavlinkProofs`, `MavlinkObjects` | the MAVLink v2 codec: finalising, serialising, the byte-driven parser, CRC-16/MCRF4XX and the loop that drains datagrams |
| `Uorb`, `UorbObjects` | publish/subscribe with overwriting depth-1 queues, as interleaved atomic steps of any number of threads, and as methods |
| `Rpc`, `RpcObjects` | the drop-oldest telemetry queue and the command queue between the cores, likewise |
| `NumberTheory`, `Residues`, `EcPoint` | the Legendre symbol, the curve's right-hand side and the recovery of y by modular exponentiation, on top of Euclid's lemma, Fermat's little theorem, Lagrange's root bound and Euler's criterion |
| `Kdf` | the HMAC key-expansion loops, with HMAC uninterpreted |
| `Thermal` | the assembly of thermal frames from VoSPI packets |
| `SysmonModel`, `SysmonProofs`, `SysmonEffects`, `SysmonObjects` | the arming and failsafe logic of the system monitor |
| `TxBudget` | the MAVLink transmit budget |
| `Mmpkt` | the packet buffer: its layout and its operations |
| `MmCrc` | the table-driven CRC-16/XMODEM |

Where the source updates state in place the model has a class or a method with loops, proved equal to a
function of the old state; the properties are then proved of the functions, over all inputs and all
runs. Concurrency is modelled as a state machine whose steps are the atomic queue and lock operations.
What the outside supplies is a parameter: `sqrt`, `sin` and `cos` (assumed only to satisfy
sqrt(x)^2 = x with sqrt(x) >= 0, and sin^2 + cos^2 = 1), the recording of SPI transfers, clocks, allocation results, HMAC.

## Where the code and its description differ

- The sender takes a sequence number for a header it then throws away (mod_camera_h264.c:304). The model
  has the count of wasted numbers as a parameter: 0 is what RFC 6184 asks for, 1 is the code. The
  round trips are proved for 0, safety for both, and with 1 no NAL unit over 1200 bytes ever arrives.
- The comment "drop oldest and try again" suggests that a telemetry send that evicts succeeds. With one
  producer it does; with two or more it can evict and still fail (`Rpc.NeverRefusedIffAlone`).
- The text sent on an IMU failure says "disarming"; the code lands and never disarms for a failsafe. The
  comment "highest severity wins" does not cover a lost ground link, which hides every other failsafe (`SysmonProofs.LostLinkHidesSensorFailure`).
- The landing timer uses 0 for "not running", so a landing first seen when the 32-bit millisecond clock
  reads 0 is timed from the first later turn in which it does not (`SysmonProofs.LandingAtClockZero`).
- An odd y for a root of 0 comes out as p, outside the field (`EcPoint.OddOverflow`).
- `mmpkt_init_buf` documents NULL for a buffer that is too short; sizes that wrap 32 bits are accepted
  (`Mmpkt.WrapIsAccepted`, `Mmpkt.HugeMetadataIsAccepted`).
- The comments on the measurement Jacobian call it -[p]x; its entries are those of [p]x, and those are the
  derivative (`AhrsDirection.JacobianIsDerivative`).
- The comment on the transmit budget speaks of one packet for each 1 KB/s; the code divides by 500.
- The filter's header calls it a 7-state filter; the covariance it keeps is 6x6, in 7x7 storage.

## Model

| member | source | states |
|---|---|---|
| AhrsModel.ReachableInv | esp32p4_heli_fc/main/estimator/ahrs.c:141-620 | After ahrs_init and any sequence of predictions, accelerometer and magnetometer updates, early exits included, the 6x6 covariance is symmetric positive semidefinite, the attitude quaternion has norm exactly 1 and the captured magnetic reference is a unit vector |
| AhrsModel.RunInv | esp32p4_heli_fc/main/estimator/ahrs.c:593-620 | The same invariant is kept by a run of steps from any state that satisfies it |
| AhrsModel.InitInv | esp32p4_heli_fc/main/estimator/ahrs.c:141-171 | The initial state satisfies the invariant |
| AhrsModel.PredictInv | esp32p4_heli_fc/main/estimator/ahrs.c:175-255 | Prediction keeps the invariant, for every gyro reading and positive dt |
| AhrsModel.AccelInv | esp32p4_heli_fc/main/estimator/ahrs.c:259-431 | The accelerometer update keeps it, whether it returns early or runs |
| AhrsModel.MagInv | esp32p4_heli_fc/main/estimator/ahrs.c:435-589 | So does the magnetometer update, whether or not it captures the reference |
| AhrsModel.CaptureInv | esp32p4_heli_fc/main/estimator/ahrs.c:444-457 | The first accepted magnetometer sample fixes a reference direction of length 1, because the rotation it goes through keeps length |
| AhrsModel.GuardNeverFires | esp32p4_heli_fc/main/estimator/ahrs.c:336-341 | In a reachable state the determinant of S is at least r^3 (r being 0.25 or 0.09), so at least 0.000729: the exit for a determinant under 1e-10 is dead code |
| AhrsModel.KalmanInv | esp32p4_heli_fc/main/estimator/ahrs.c:305-430 | The update both sensors share never takes its determinant exit and keeps the invariant |
| AhrsMeaning.AccelCorrects | esp32p4_heli_fc/main/estimator/ahrs.c:259-287 | A sample of 7.848 to 11.772 m/s^2 corrects the state from predicted gravity g towards the normalised sample u: attitude turned by the first half of dx and bias shifted by the second, where dx = P H'w for the w with S w = u - g; what is left, (u - g) - H dx = r w, is never longer than u - g; the new covariance is the Joseph form |
| AhrsMeaning.AccelIgnored | esp32p4_heli_fc/main/estimator/ahrs.c:262-267 | Any other sample changes nothing |
| AhrsMeaning.MagCorrects | esp32p4_heli_fc/main/estimator/ahrs.c:435-482 | A field sample of length at least 1e-6 likewise corrects the state towards the measured field, from the field R'[ref_x, 0, ref_z] predicted with the reference in force |
| AhrsMeaning.CaptureMeasures | esp32p4_heli_fc/main/estimator/ahrs.c:448-457 | The first sample fixes the reference to the horizontal length and the vertical part of the field in the navigation frame, and no later one changes it |
| AhrsMeaning.FirstSampleIsLevel | esp32p4_heli_fc/main/estimator/ahrs.c:444-470 | The innovation of that first sample is orthogonal to predicted gravity: it corrects the heading, not the tilt |
| AhrsEstimate.KalmanCorrects | esp32p4_heli_fc/main/estimator/ahrs.c:305-430 | The shared update takes the estimate dx = P H'w with S w = y, leaves r w of the innovation, and gives the Joseph covariance |
| AhrsEstimate.LeastSquares | esp32p4_heli_fc/main/estimator/ahrs.c:354-383 | That estimate is the least-squares one: among all estimates P xi it minimises r xi.P xi + (y - H P xi)^2, and any other costs more by exactly r e.P e + (H P e)^2 |
| AhrsEstimate.ResidualShrinks | esp32p4_heli_fc/main/estimator/ahrs.c:379-383 | A correction never leaves more of the innovation than there was |
| AhrsDirection.JacobianIsDerivative | esp32p4_heli_fc/main/estimator/ahrs.c:289-303 | H is the derivative of the prediction: turning q by (1, d/2) changes the direction p that the body sees to p + H d plus terms of second degree in d, for gravity and field alike |
| AhrsDirection.SecondOrderScales | esp32p4_heli_fc/main/estimator/ahrs.c:289-303 | and those terms scale with the square of d |
| AhrsDirection.SeenTurns | esp32p4_heli_fc/main/estimator/ahrs.c:78-93 | Rodrigues' formula for the matrix of quat_to_dcm: (w, v) after q turns a seen direction p into (w^2 - v.v) p + 2w (p x v) + 2 (p.v) v |
| AhrsDirection.DcmMultiplies | esp32p4_heli_fc/main/estimator/ahrs.c:78-137 | The matrix of a quaternion product is the product of the matrices |
| AhrsMeaning.TurnActs | esp32p4_heli_fc/main/estimator/ahrs.c:115-128 | The turn by small_angle_quat is exactly that rotation, along d and with the cosine and sine of half its length |
| AhrsMeaning.TurnStays | esp32p4_heli_fc/main/estimator/ahrs.c:118-120 | An estimate shorter than 1e-8 does not turn the attitude |
| AhrsEstimate.PredictTurns | esp32p4_heli_fc/main/estimator/ahrs.c:177-195 | Prediction multiplies the attitude by (1, (gyro - bias) dt / 2) and scales it back to length 1 |
| AhrsEstimate.RestKeepsAttitude | esp32p4_heli_fc/main/estimator/ahrs.c:177-195 | so a gyro that reads its bias leaves the attitude as it is |
| AhrsEstimate.TransitionActs | esp32p4_heli_fc/main/estimator/ahrs.c:217-233 | F carries an attitude error a and a bias error b to (a - dt (w x a) - dt b, b) |
| AhrsEstimate.PredictVariance | esp32p4_heli_fc/main/estimator/ahrs.c:235-247 | Every variance after a prediction is that of the error carried back through F, plus 1e-4 dt^2 on the attitude and 1e-6 dt on the bias |
| AhrsEstimate.StartsLevel | esp32p4_heli_fc/main/estimator/ahrs.c:141-171 | At the start the matrix is the identity, the bias 0, and the standard deviations are 10 degrees and 1 degree per second |
| Covariance.PredictKeepsPsd | esp32p4_heli_fc/main/estimator/ahrs.c:235-247 | F P F' + Q is symmetric positive semidefinite when P is and the entries of Q are not negative |
| Covariance.CramerInverts | esp32p4_heli_fc/main/estimator/ahrs.c:336-352 | The nine cofactor formulas, divided by a non-zero determinant, give a matrix Si with S Si = I |
| Covariance.CramerSymmetric | esp32p4_heli_fc/main/estimator/ahrs.c:343-352 | Si is symmetric when S is |
| Covariance.InnovationForm | esp32p4_heli_fc/main/estimator/ahrs.c:323-334 | As a quadratic form S = H P H' + r I is that of P at H'x plus r times the square of the length of x, so S dominates r I |
| Covariance.DetBound | esp32p4_heli_fc/main/estimator/ahrs.c:337-340 | A symmetric 3x3 matrix that dominates r I has determinant at least r^3 |
| Joseph.JosephIdentity | esp32p4_heli_fc/main/estimator/ahrs.c:354-425 | The Joseph identity, entry by entry: for a symmetric P, (I - K H) P as computed equals (I - K H) P (I - K H)' + r K K' |
| Covariance.JosephForm | esp32p4_heli_fc/main/estimator/ahrs.c:354-425 | The same as quadratic forms: with w = S^-1 H P x and z = x - H'w, x.(I - K H) P x = z.P z + r w.w |
| Joseph.GainTransposed | esp32p4_heli_fc/main/estimator/ahrs.c:354-377 | K'x is S^-1 H P x |
| Joseph.ComplementTransposed | esp32p4_heli_fc/main/estimator/ahrs.c:401-412 | (I - K H)'x is x - H'K'x |
| Covariance.CorrectSymmetric | esp32p4_heli_fc/main/estimator/ahrs.c:401-425 | (I - K H) P is symmetric although the code never symmetrises it |
| Covariance.CorrectKeepsPsd | esp32p4_heli_fc/main/estimator/ahrs.c:305-430 | The covariance update keeps a symmetric positive semidefinite covariance, and its determinant is at least r^3 |
| LinearAlgebra.MulAssoc | esp32p4_heli_fc/main/estimator/ahrs.c:45-56 | The product loop's function is associative |
| LinearAlgebra.MulTransposed | esp32p4_heli_fc/main/estimator/ahrs.c:67-74 | Multiplying by a stored transpose is the row-by-row product that the update loops compute |
| Quaternion.ProductNorm | esp32p4_heli_fc/main/estimator/ahrs.c:131-137 | The quaternion product multiplies norms |
| Quaternion.IntegrateNorm | esp32p4_heli_fc/main/estimator/ahrs.c:183-194 | The prediction step gives norm squared times 1 + w^2 dt^2 / 4 |
| Quaternion.IntegrateUnit | esp32p4_heli_fc/main/estimator/ahrs.c:183-195 | A predicted unit quaternion is normalised back to norm 1, and the skip branch of quat_normalize is not taken |
| Quaternion.SmallAngleUnit | esp32p4_heli_fc/main/estimator/ahrs.c:115-128 | small_angle_quat gives a unit quaternion on both branches |
| Quaternion.CorrectionUnit | esp32p4_heli_fc/main/estimator/ahrs.c:385-394 | For every correction vector the corrected attitude is a unit quaternion again |
| Quaternion.RotationKeepsLength | esp32p4_heli_fc/main/estimator/ahrs.c:78-93 | The matrix of quat_to_dcm is v -> q v q*, so for a unit q it keeps lengths |
| MatrixLoops.MatMul | esp32p4_heli_fc/main/estimator/ahrs.c:45-56 | The triple loop computes the matrix product |
| MatrixLoops.MatMulT | esp32p4_heli_fc/main/estimator/ahrs.c:323-334 | The triple loop that reads its right factor by rows computes the product with the transpose |
| MatrixLoops.MatTranspose | esp32p4_heli_fc/main/estimator/ahrs.c:67-74 | The double loop transposes |
| MatrixLoops.ComplementMul | esp32p4_heli_fc/main/estimator/ahrs.c:414-425 | The loop that subtracts inside the product computes (I - K H) P |
| AhrsObject.AhrsFilter.constructor | esp32p4_heli_fc/main/estimator/ahrs.c:141-171 | The object starts in the model's initial state |
| AhrsObject.AhrsFilter.Predict | esp32p4_heli_fc/main/estimator/ahrs.c:175-255 | In-place prediction on the fields and the 7x7 storage does what the model's prediction does, which AhrsEstimate.PredictTurns, TransitionActs and PredictVariance describe |
| AhrsObject.AhrsFilter.UpdateAccel | esp32p4_heli_fc/main/estimator/ahrs.c:259-431 | In-place accelerometer update: the new state is the model's, early exits included, which AhrsMeaning.AccelCorrects and AccelIgnored describe |
| AhrsObject.AhrsFilter.UpdateMag | esp32p4_heli_fc/main/estimator/ahrs.c:435-589 | In-place magnetometer update likewise; AhrsMeaning.MagCorrects describes it |
| AhrsObject.AhrsFilter.GainArray | esp32p4_heli_fc/main/estimator/ahrs.c:305-377 | The loops for S and K give the gain P H' S^-1, or report the tiny determinant |
| AhrsObject.AhrsFilter.Invert | esp32p4_heli_fc/main/estimator/ahrs.c:343-352 | The nine assignments give the cofactor matrix of the model |
| AhrsObject.AhrsFilter.Update | esp32p4_heli_fc/main/estimator/ahrs.c:593-609 | ahrs_update is prediction, then the accelerometer, then the magnetometer update, or nothing for dt outside (0, 0.1], and keeps the invariant |
| AhrsObject.AhrsFilter.UpdateImu | esp32p4_heli_fc/main/estimator/ahrs.c:611-620 | ahrs_update_imu is prediction, then the accelerometer update, under the same condition |
| RtpAnnexB.SplitJoin | mod_camera_h264.c:255-276 | For NAL units with no start code inside (and no trailing zero before a 3-byte code), joined by 3- or 4-byte start codes in any mixture, the splitter finds exactly those units, the last one marked |
| RtpAnnexB.FrameRoundTrip | mod_camera_h264.c:245-326 | Splitting, packetising with one number per packet and in-order parsing from any parser state give back exactly the list of NAL units, with the marker on the last only |
| RtpModel.HeaderFields | mod_camera_h264.c:205-219 | The twelve header bytes: version 2 without padding, extension or sources, the marker over payload type 96, then number, timestamp and source big-endian |
| RtpModel.FragmentHeader | mod_camera_h264.c:286-313 | The two FU-A bytes: the unit's upper three bits over type 28, then start and end flag, set on the first and the last fragment only, over the unit's type; the fragment's bytes follow |
| RtpProofs.WireSize | mod_camera_h264.c:234-238 | No packet is longer than 1212 bytes |
| RtpProofs.WireRoundTrip | tools/h264_viewer.py:41-69 | The viewer reads back the sequence number, marker and payload of every packet that the sender serialises |
| RtpProofs.WireBytes | mod_camera_h264.c:205-219 | Every header field and fragment header fits its byte |
| RtpProofs.JobDelivers | tools/h264_viewer.py:58-95 | From any parser state the packets of one NAL unit, in order, yield exactly that unit |
| RtpProofs.InOrderRoundTrip | mod_camera_h264.c:280-323 | On a lossless in-order network with one number per packet the viewer yields exactly the units sent, from any parser state and starting number |
| RtpHostile.HostileRun | tools/h264_viewer.py:58-95 | However packets are lost, repeated or reordered, after any outage, everything the viewer yields is byte for byte a unit that was sent, with its own marker, unless two neighbouring arrivals are a non-zero multiple of 2^16 off from being consecutive; and with wasted numbers nothing longer than a packet is yielded |
| RtpHostile.ArrivalSafe | tools/h264_viewer.py:56-95 | The step of that: the reassembly buffer is empty or a prefix of the unit last seen, and an arrival yields nothing or its own whole unit |
| RtpHostile.HistorySuccessor | mod_camera_h264.c:291-322 | The number after a middle fragment's belongs to its continuation, or, when numbers are wasted, to no packet |
| RtpHostile.WindowIsNear | tools/h264_viewer.py:59-66 | Packets whose numbers span fewer than 2^16 values satisfy that condition in whatever order they arrive |
| RtpHostile.WrapSplices | tools/h264_viewer.py:59-66 | The condition cannot be dropped: for every starting number and every k > 0, two fragments whose numbers are k 2^16 + 1 apart occur in one history, and arriving one after the other they are spliced; if the two units share neither half, into a unit that was never sent |
| RtpHostile.LateSplices | tools/h264_viewer.py:59-66 | The same when the second fragment is an old one, k 2^16 - 1 numbers before the first |
| RtpHostile.HistoryAppend | mod_camera_h264.c:245-326 | The packets of two lists of units, one sent after the other, are those of the joined list, numbered on |
| RtpHostile.AsWrittenInOrder | mod_camera_h264.c:304-310 | With the extra number that line 304 takes before every fragment, even a faithful in-order network delivers exactly the units of at most 1200 bytes |
| RtpObjects.RtpSender.FindNext | mod_camera_h264.c:267-276 | The scanning loop finds the next start code or the end |
| RtpObjects.RtpSender.NextUnit | mod_camera_h264.c:255-278 | The frame loop's scan skips to the next non-empty unit |
| RtpObjects.RtpSender.SendFragment | mod_camera_h264.c:291-322 | One pass of the fragment loop sends the fragment at the current offset under the next number, having wasted the given count |
| RtpObjects.RtpSender.SendFragments | mod_camera_h264.c:285-323 | The fragment loop sends exactly the model's fragments |
| RtpObjects.RtpSender.SendFrame | mod_camera_h264.c:245-326 | rtp_send_frame sends exactly the model's packets for the units of the buffer, for any unwrapped number that the 16-bit counter stands for, and bumps the timestamp; on a closed socket it does nothing |
| RtpStream.SendFrames | mod_camera_h264.c:245-326 | Frame after frame, however often the 16-bit counter wraps, the datagrams are those of one history of all the units |
| RtpStream.HostileSession | tools/h264_viewer.py:41-95 | A sender of any number of frames, a network that picks datagrams in any order, and the viewer: every yield is a unit that was sent, under the same condition on neighbouring arrivals |
| RtpStream.FaithfulSession | tools/h264_viewer.py:41-95 | On a faithful network with one number per packet any number of frames come out as exactly their units, in order, each frame's marker on its last unit |
| RtpStream.Receive | tools/h264_viewer.py:41-95 | Parsing datagram by datagram yields what the model yields for the sequence |
| RtpObjects.RtpParser.ParseData | tools/h264_viewer.py:41-95 | RTPParser.parse updates its fields and yields as the model does |
| MavlinkCrc.StepIsBitwise | esp32p4halow/main/mavlink/mavlink_msg.c:43-49 | The byte-wise step equals eight steps of the bitwise reflected CRC with polynomial 0x8408 |
| MavlinkCrc.StepInjective | esp32p4halow/main/mavlink/mavlink_msg.c:43-49 | For each byte the step is injective on the 16-bit state |
| MavlinkCrc.StepOnto | esp32p4halow/main/mavlink/mavlink_msg.c:43-49 | and every state is reached, from a state computed backwards: the step is a bijection |
| MavlinkCrc.TwoBytesInjective | esp32p4halow/main/mavlink/mavlink_msg.c:43-49 | Two consecutive bytes are determined by the state before and after them |
| MavlinkCrc.BurstDetected | esp32p4halow/main/mavlink/mavlink_msg.c:51-56 | A change confined to two adjacent bytes changes the CRC whatever follows |
| MavlinkCrc.AccumulateAppend | esp32p4halow/main/mavlink/mavlink_msg.c:51-56 | Accumulating in pieces gives the same CRC |
| MavlinkCrc.CheckValue | esp32p4halow/main/mavlink/mavlink_msg.c:36-49 | The CRC from 0xFFFF of the characters 123456789 is 0x6F91, the catalogue value of CRC-16/MCRF4XX |
| MavlinkModel.IdRoundTrip | esp32p4halow/main/mavlink/mavlink_msg.c:241-255 | The three identifier bytes, or-ed back together, give every msgid below 2^24 |
| MavlinkProofs.FrameRun | esp32p4halow/main/mavlink/mavlink_msg.c:192-305 | Fed a frame with any header, payload and checksum, an idle parser outputs the message it says if the checksum is the frame's CRC with the extra byte, and nothing otherwise, and is idle again |
| MavlinkProofs.MessageDelivered | esp32p4halow/main/mavlink/mavlink_msg.c:133-182 | A finalised message, serialised, comes out of the parser as it was sent |
| MavlinkProofs.TrafficDelivered | esp32p4halow/main/mavlink/mavlink_msg.c:307-322 | A list of finalised messages with 0xFD-free garbage before and between the frames comes out as exactly that list, in order |
| MavlinkProofs.CallersMessagesDelivered | esp32p4halow/main/mavlink/mavlink_msg.c:133-322 | End to end: k messages finalised one after another from counter n and serialised leave an idle parser with exactly k messages, each with the length, ids and payload its caller filled in, no flags, zeros after the payload, and number n + index modulo 256 |
| MavlinkProofs.FinalizedDelivered | esp32p4halow/main/mavlink/mavlink_msg.c:133-182 | One of them: a message finalised under a number arrives as filled in, under that number |
| MavlinkObjects.SendAll | esp32p4halow/main/mavlink/mavlink_msg.c:133-182 | The calls in sequence put exactly those frames on the wire and leave the counter as many further on |
| MavlinkObjects.Session | esp32p4halow/main/mavlink_handler.c:375-397 | Encoder and receiver objects together: every message handed to the encoder reaches the receiver, in order and consecutively numbered |
| MavlinkProofs.IdleWithin | esp32p4halow/main/mavlink/mavlink_msg.c:192-305 | From any reachable state and on any bytes the parser is idle within 266 further bytes |
| MavlinkProofs.QuietResets | esp32p4halow/main/mavlink/mavlink_msg.c:195-203 | 266 bytes without 0xFD leave it idle |
| MavlinkProofs.Resynchronises | esp32p4halow/main/mavlink/mavlink_msg.c:192-305 | Whatever came before, frames that follow 266 bytes without 0xFD are all delivered |
| MavlinkProofs.CorruptionRejected | esp32p4halow/main/mavlink/mavlink_msg.c:285-297 | A frame of any length in which one or two adjacent payload bytes were changed is rejected, and the unchanged frame is accepted |
| MavlinkObjects.Encoder.Finalize | esp32p4halow/main/mavlink/mavlink_msg.c:133-156 | mavlink_finalize sets magic 0xFD, clears the flags, puts in the counter and advances it modulo 256, keeps length, ids and payload as the caller filled them in, and seals the checksum |
| MavlinkObjects.Serialize | esp32p4halow/main/mavlink/mavlink_msg.c:158-182 | mavlink_serialize writes exactly the frame, or -1 and nothing when it does not fit; no byte beyond it changes |
| MavlinkObjects.Receiver.ParseByte | esp32p4halow/main/mavlink/mavlink_msg.c:192-305 | The byte handler updates the parser's fields as the model's transition does, with payload_idx below len while collecting, and reports exactly the completed messages |
| MavlinkObjects.Receiver.ParseBuffer | esp32p4halow/main/mavlink/mavlink_msg.c:307-322 | mavlink_parse consumes up to the end of the first completed message, or everything |
| MavlinkObjects.Receiver.ProcessIncoming | esp32p4halow/main/mavlink_handler.c:375-397 | The draining loop hands over exactly the messages that the whole datagram completes |
| MavlinkObjects.ReceiveAll | esp32p4halow/main/mavlink_handler.c:375-397 | However a stream of frames and garbage is cut into datagrams, an idle receiver ends up with exactly its messages, in order |
| Uorb.CopiesInOrder | esp32p4_heli_fc/main/uorb/uorb.c:96-124 | Under every interleaving of publishers, advertisers, subscribers and late subscriptions, the values a subscriber has copied are values published since it registered, at strictly increasing places of the publish history |
| Uorb.QuiescentQueues | esp32p4_heli_fc/main/uorb/uorb.c:109-124 | Whenever no thread holds the topic mutex a non-empty queue holds latest_data, and a subscriber with an empty queue has already copied the newest value published since it registered |
| Uorb.MutualExclusion | esp32p4_heli_fc/main/uorb/uorb.c:174-179 | At most one thread is inside a publication or a registration, and the subscriber table never exceeds its four places |
| Uorb.RunInv | esp32p4_heli_fc/main/uorb/uorb.c:52-198 | The invariant behind these holds after every sequence of atomic steps |
| Uorb.PushSubs | esp32p4_heli_fc/main/uorb/uorb.c:115-120 | A queue overwrite in the middle of a publication keeps every subscriber's record in order |
| Uorb.RegisterSubs | esp32p4_heli_fc/main/uorb/uorb.c:174-177 | A registration between publications adds a subscriber that has missed nothing published since |
| UorbObjects.PublishAlone | esp32p4_heli_fc/main/uorb/uorb.c:96-124 | An undisturbed publication sets latest_data, fills every queue and releases the mutex |
| UorbObjects.SubscribeAlone | esp32p4_heli_fc/main/uorb/uorb.c:127-183 | An undisturbed subscription adds an empty queue, or nothing when the topic is not advertised, the table full or allocation fails |
| UorbObjects.AdvertiseAlone | esp32p4_heli_fc/main/uorb/uorb.c:61-89 | An undisturbed advertisement initialises an unadvertised topic, leaves an advertised one, or does nothing when allocation fails, and releases the mutex |
| UorbObjects.CopyAlone | esp32p4_heli_fc/main/uorb/uorb.c:186-198 | orb_copy in the state machine empties the one queue and appends what was in it to what was copied |
| UorbObjects.Topic.Advertise | esp32p4_heli_fc/main/uorb/uorb.c:61-89 | orb_advertise initialises an unadvertised topic and leaves an advertised one alone |
| UorbObjects.Topic.Publish | esp32p4_heli_fc/main/uorb/uorb.c:96-124 | The loop over the subscribers overwrites every queue; an unadvertised topic is refused |
| UorbObjects.Topic.Subscribe | esp32p4_heli_fc/main/uorb/uorb.c:127-183 | orb_subscribe adds the subscriber and says which one, or refuses and changes nothing |
| UorbObjects.Topic.Copy | esp32p4_heli_fc/main/uorb/uorb.c:186-198 | orb_copy takes the queued value and empties that queue only |
| UorbObjects.Topic.Check | esp32p4_heli_fc/main/uorb/uorb.c:201-209 | orb_check is true exactly when a value is queued |
| Rpc.Conservation | esp32p4_heli_fc/main/rpc/rpc_core.c:102-166 | Under every interleaving of any number of producers and one consumer each accepted message is exactly one of received, evicted or still queued, receipt is in the order of acceptance, the queue keeps its depth, and the sends that returned 0 are exactly the accepted messages |
| Rpc.CommandsNeverLost | esp32p4_heli_fc/main/rpc/rpc_core.c:134-189 | Accepted commands are never lost or reordered: received and queued together are what was accepted |
| Rpc.EvictionAfterFull | esp32p4_heli_fc/main/rpc/rpc_core.c:108-113 | A producer about to evict saw the queue full during the same send and has done nothing since |
| Rpc.DropNeedsRival | esp32p4_heli_fc/main/rpc/rpc_core.c:113-120 | A send that evicted is refused only if another send was accepted in between |
| Rpc.LoneProducerNeverDrops | esp32p4_heli_fc/main/rpc/rpc_core.c:102-130 | With one producer every telemetry send that returns was accepted |
| Rpc.EvictsAndDrops | esp32p4_heli_fc/main/rpc/rpc_core.c:110-120 | With any two or more producers that is false: a run in which a send evicts a message and is then refused |
| Rpc.NeverRefusedIffAlone | esp32p4_heli_fc/main/rpc/rpc_core.c:102-130 | In every run every telemetry send that returns was accepted, exactly when there is at most one producer |
| RpcObjects.TelemetryAgrees | esp32p4_heli_fc/main/rpc/rpc_core.c:102-130 | An undisturbed telemetry send leaves its message last, at the price of the oldest on a full queue, and returns 0 |
| RpcObjects.CommandAgrees | esp32p4_heli_fc/main/rpc/rpc_core.c:168-189 | An undisturbed command send appends, or is refused on a full queue |
| RpcObjects.Context.Initialise | esp32p4_heli_fc/main/rpc/rpc_core.c:75-98 | Both queues are empty afterwards if both can be created; the telemetry queue never outlives a failed command queue, and the command queue is left as it was when the telemetry queue cannot be created |
| RpcObjects.Context.SendTelemetry | esp32p4_heli_fc/main/rpc/rpc_core.c:102-130 | The method: -1 without a queue, else the message is last and only the oldest may be gone |
| RpcObjects.Context.ReceiveTelemetry | esp32p4_heli_fc/main/rpc/rpc_core.c:151-166 | Takes the first message, or reports an empty or missing queue and changes nothing |
| RpcObjects.Context.SendCommand | esp32p4_heli_fc/main/rpc/rpc_core.c:168-189 | Accepted exactly when there is a queue with room |
| RpcObjects.Context.ReceiveCommand | esp32p4_heli_fc/main/rpc/rpc_core.c:134-149 | Takes the first command, or reports an empty or missing queue and changes nothing |
| EcPoint.LegendreIsSymbol | framework/mm_shims/crypto_mbedtls_mm.c:998-1036 | For every odd prime p crypto_bignum_legendre returns the Legendre symbol: 0 exactly for multiples of p, 1 exactly for the other squares modulo p, -1 for the rest |
| EcPoint.Legendre | framework/mm_shims/crypto_mbedtls_mm.c:998-1036 | The bignum calls and the two branch-free selections give -2 for an even or non-positive p and otherwise the classification of a^((p-1)/2) mod p |
| NumberTheory.Fermat | framework/mm_shims/crypto_mbedtls_mm.c:1012-1016 | The fact behind it: a^p = a modulo a prime p, and a^(p-1) = 1 unless p divides a |
| Residues.OneGivesSquare | framework/mm_shims/crypto_mbedtls_mm.c:1012-1023 | If a^((p-1)/2) = 1 modulo an odd prime p then a has a square root (else x^((p-1)/2) - 1 had too many roots) |
| Residues.SquareGivesOne | framework/mm_shims/crypto_mbedtls_mm.c:1012-1023 | Conversely for every square not divisible by p |
| Residues.Lagrange | framework/mm_shims/crypto_mbedtls_mm.c:1012-1023 | A monic polynomial of degree d has at most d distinct roots modulo a prime |
| ConstTime.IsZero | framework/mm_shims/crypto_mbedtls_mm.c:91-102 | All ones for zero and zero otherwise |
| ConstTime.Eq | framework/mm_shims/crypto_mbedtls_mm.c:104-108 | All ones for equal words and zero otherwise |
| ConstTime.EqU8 | framework/mm_shims/crypto_mbedtls_mm.c:110-114 | The same, truncated to a byte |
| ConstTime.Select | framework/mm_shims/crypto_mbedtls_mm.c:123-128 | Returns the first value for a mask of ones and the second for a mask of zeros |
| EcPoint.NestedForm | framework/mm_shims/crypto_mbedtls_mm.c:1743-1757 | The nested form with its four reductions equals x^3 + ax + b modulo p, with a = -3 when it is unset |
| EcPoint.RhsIs | framework/mm_shims/crypto_mbedtls_mm.c:1728-1757 | The right-hand side is x^3 - 3x + b when a is unset, and x^3 + ax + b otherwise |
| EcPoint.YSqr | framework/mm_shims/crypto_mbedtls_mm.c:1698-1759 | The in-place bignum steps leave x^3 + ax + b mod p, and fail exactly for a non-positive p |
| EcPoint.DeriveY | framework/mm_shims/crypto_mbedtls_mm.c:1228-1257 | The in-place steps leave the candidate w^((p+1)/4) mod p, or p minus it when its parity bit differs; the result is 0 exactly for a positive p = 3 modulo 4, and otherwise x is left in place |
| EcPoint.LegendreOneSolves | framework/mm_shims/crypto_mbedtls_mm.c:1232-1252 | If the Legendre test of w = x^3 + ax + b gives 1 and p = 3 modulo 4 (prime or not), y^2 = w modulo p for either parity |
| EcPoint.SolvesIffSquare | framework/mm_shims/crypto_mbedtls_mm.c:1232-1252 | For a prime p = 3 modulo 4, y^2 = w modulo p exactly when w is a square modulo p |
| EcPoint.ParityAndRange | framework/mm_shims/crypto_mbedtls_mm.c:1252 | The parity is the one asked for; an even y is in [0, p), an odd y in (0, p], and it is p exactly when the candidate is 0 |
| EcPoint.OverflowsIffRootZero | framework/mm_shims/crypto_mbedtls_mm.c:1252 | For a prime p the odd y overflows to p exactly when p divides the right-hand side |
| EcPoint.OddOverflow | framework/mm_shims/crypto_mbedtls_mm.c:1252 | It happens: y^2 = x^3 - 3x over the field of 7 elements at x = 0 |
| EcPoint.PointRoundTrip | framework/mm_shims/crypto_mbedtls_mm.c:1228-1257 | For a prime p = 3 modulo 4 and every point (x, y) of the curve, deriving y from x and the parity of y gives y back |
| Kdf.HmacPrfBits | framework/mm_shims/crypto_mbedtls_mm.c:441-506 | Writes exactly the first (bits + 7) / 8 bytes of the buffer, with the masked key stream; the rest, and everything when the set-up fails, is unchanged |
| Kdf.Expand | framework/mm_shims/crypto_mbedtls_mm.c:460-496 | The block loop and its tail fill the buffer with the stream, whole blocks first |
| Kdf.PrfBits | framework/mm_shims/crypto_mbedtls_mm.c:498-502 | The output is the first bits of the stream, and the unused bits of the last byte are zero |
| Kdf.MaskBits | framework/mm_shims/crypto_mbedtls_mm.c:499-502 | The mask keeps the first r bits of a byte and clears the others |
| Kdf.TakeConcatenates | framework/mm_shims/crypto_mbedtls_mm.c:464-480 | The stream is HMAC(1, label, data, L), HMAC(2, label, data, L), ... one after another (section 11.6.1.7.2 of IEEE Std 802.11ac-2013) |
| Kdf.PrfLayout | framework/mm_shims/crypto_mbedtls_mm.c:460-479 | Block i of up to 65535 is computed over the number i + 1 and the number of bits, 16-bit little-endian, around label and data |
| Kdf.StreamRepeats | framework/mm_shims/crypto_mbedtls_mm.c:460-465 | The 16-bit counter makes the stream repeat after 65536 blocks |
| Kdf.MessagesDiffer | framework/mm_shims/crypto_mbedtls_mm.c:460-465 | and within 65536 blocks no two HMAC messages are equal |
| Kdf.LengthWraps | framework/mm_shims/crypto_mbedtls_mm.c:460-464 | Only the low 16 bits of the bit length enter the messages: for any two lengths that agree in them the bits of the shorter output are the first bits of the longer |
| Kdf.Sha1Prf | framework/mm_shims/crypto_mbedtls_mm.c:556-592 | Writes exactly the requested bytes of the stream, or, when an HMAC call fails, -1 and the blocks before it; the rest of the buffer is unchanged |
| Kdf.Sha1Prefix | framework/mm_shims/crypto_mbedtls_mm.c:556-592 | A shorter sha1_prf output is a prefix of a longer one |
| Thermal.Lepton.Turn | esp32p4_heli_fc/main/comm/thermal_camera.c:242-330 | A newly published frame is the big-endian decoding of 240 packets that were in order, each segment's packet 20 carrying its number, and needs the mutex; a turn that publishes nothing leaves the published frame unchanged; an undisturbed frame is published whenever the mutex is free |
| Thermal.Lepton.ReadFrame | esp32p4_heli_fc/main/comm/thermal_camera.c:248-301 | On success the buffer is exactly the payloads of four final passes: packets 0..59 of each segment in order with only discard packets between them |
| Thermal.Lepton.ReadSegment | esp32p4_heli_fc/main/comm/thermal_camera.c:251-300 | One pass over a segment adds its 60 packets, or is skipped when packet 20 says segment 0, without disturbing the segments before |
| Thermal.Lepton.ReadPacket | esp32p4_heli_fc/main/comm/thermal_camera.c:251-296 | One transfer: what each kind of packet does to the pass, the counters and the sync flag |
| Thermal.Lepton.CopyPayload | esp32p4_heli_fc/main/comm/thermal_camera.c:292-293 | A payload lands at its place in the 38400-byte buffer and nothing else changes |
| Thermal.Lepton.Decode | esp32p4_heli_fc/main/comm/thermal_camera.c:323-327 | The pixel loop decodes the whole buffer |
| Thermal.Lepton.Run | esp32p4_heli_fc/main/comm/thermal_camera.c:242-345 | Over a whole recording of transfers, whatever the mutex does, a published frame is the decoding of a whole frame of the recording |
| Thermal.Extend | esp32p4_heli_fc/main/comm/thermal_camera.c:271-295 | Storing a packet that fits its place extends the part of the frame in the buffer |
| Thermal.IdFields | esp32p4_heli_fc/main/comm/thermal_camera.c:259-286 | The identifier as a 16-bit big-endian word: packet number in the low 12 bits, segment number in bits 12 to 14, discard when bits 8 to 11 are all set |
| Thermal.TrackStep | esp32p4_heli_fc/main/comm/thermal_camera.c:259-295 | A reader following an undisturbed frame finds a discard packet or the packet it expects |
| Thermal.NothingStale | esp32p4_heli_fc/main/comm/thermal_camera.c:292-293 | A whole frame determines all 38400 bytes: nothing stale survives |
| Thermal.DecodedFrame | esp32p4_heli_fc/main/comm/thermal_camera.c:321-329 | The decoding loop's result is the frame's pixels |
| SysmonProofs.ArmingIsSafe | esp32p4_heli_fc/main/agents/sysmon_agent.c:507-533 | In every run, the step that arms is a rising edge of the arm switch or an arm command, and at that moment the IMU and RC samples are fresh, the RC sample's collective is within the limit then in force, the failsafe is none or battery-low and the battery is not critical |
| SysmonProofs.ArmingStep | esp32p4_heli_fc/main/agents/sysmon_agent.c:507-612 | No other step arms, and both ways of arming make the shared checks |
| SysmonProofs.DisarmingStep | esp32p4_heli_fc/main/agents/sysmon_agent.c:402-505 | Nothing disarms but a disarm command, the falling edge of the arm switch and a timed landing; in particular no failsafe does |
| SysmonEffects.DisarmTakesEffect | esp32p4_heli_fc/main/agents/sysmon_agent.c:583-618 | For a connected vehicle a disarm command that no later arm command of the turn follows leaves it disarmed, whatever else the turn brings |
| SysmonEffects.ArmTakesEffect | esp32p4_heli_fc/main/agents/sysmon_agent.c:583-612 | An arm command with fresh IMU and RC, no serious failsafe and the collective within the limit arms, unless a later command disarms |
| SysmonEffects.SwitchOffDisarms | esp32p4_heli_fc/main/agents/sysmon_agent.c:507-541 | Turning the arm switch off on a fresh sample of at least six channels disarms, and the turn publishes it unless a command arms again |
| SysmonEffects.SwitchOnArms | esp32p4_heli_fc/main/agents/sysmon_agent.c:507-534 | Turning it on arms when the four listed checks hold |
| SysmonEffects.SwitchRemembered | esp32p4_heli_fc/main/agents/sysmon_agent.c:511-541 | The switch is compared with its position in the last fresh sample |
| SysmonEffects.LastModeDecides | esp32p4_heli_fc/main/agents/sysmon_agent.c:583-625 | The last mode command with a number below 8 decides the published mode by that number |
| SysmonEffects.ModeNumber | esp32p4_heli_fc/main/common/flight_modes.h:3-13 | The numbers of the eight modes |
| SysmonEffects.CommandsRestartLink | esp32p4_heli_fc/main/agents/sysmon_agent.c:583-586 | Every command, refused ones included, restarts the ground-link timer |
| SysmonEffects.SwitchPositions | esp32p4_heli_fc/main/agents/sysmon_agent.c:542-565 | With a fresh RC link, no serious failsafe and no mode command: below -0.3 STABILIZE is published, above 0.3 ALT_HOLD, between LOITER if there is GPS and otherwise the mode as it was |
| SysmonEffects.FallbackOutcome | esp32p4_heli_fc/main/agents/sysmon_agent.c:454-482 | Armed: barometer just lost in ALT_HOLD or LOITER gives STABILIZE, GPS stale in LOITER gives ALT_HOLD with a barometer and STABILIZE without, every other mode stays; disarmed: nothing changes |
| SysmonEffects.FallbackPublished | esp32p4_heli_fc/main/agents/sysmon_agent.c:454-565 | and that is the published mode of an armed vehicle with nothing worse than a low battery whose mode switch is not read or asks for LOITER without GPS |
| SysmonEffects.ReactOutcome | esp32p4_heli_fc/main/agents/sysmon_agent.c:402-452 | The mode after the reaction, for every failsafe |
| SysmonEffects.FlagsMean | esp32p4_heli_fc/main/agents/sysmon_agent.c:299-366 | A health flag says that the newest sample is younger than its timeout, 1 s for RC and the parameter for the sensors |
| SysmonEffects.BatteryFiltered | esp32p4_heli_fc/main/agents/sysmon_agent.c:262-294 | The battery estimate starts at the first reading above 1 V and then moves a twentieth of the way; the low and critical flags compare it with their parameters |
| SysmonProofs.FailingMeansLand | esp32p4_heli_fc/main/agents/sysmon_agent.c:402-480 | A turn that ends armed with a stale IMU or a critical battery, and without a mode command, publishes LAND; with a stale RC link LAND or RTH |
| SysmonProofs.AutoDisarmConfirmed | esp32p4_heli_fc/main/agents/sysmon_agent.c:484-505 | In every run, with the 32-bit millisecond clock wrapping, the landing section disarms only if the vehicle was landed in every turn since one more than 3000 ms ago |
| SysmonProofs.LandingDisarms | esp32p4_heli_fc/main/agents/sysmon_agent.c:484-505 | and a vehicle landed and armed since some turn is disarmed by exactly the turns that begin more than 3000 ms, by the wrapping clock, after the first of these turns whose clock did not read 0 |
| SysmonProofs.LandingAtClockZero | esp32p4_heli_fc/main/agents/sysmon_agent.c:489-492 | A run in which that matters: landed when the clock reads 0 and still landed 3001 ms later, the vehicle is still armed |
| SysmonProofs.LandingSection | esp32p4_heli_fc/main/agents/sysmon_agent.c:489-500 | The section turn by turn; a timer started when the clock reads 0 is not running |
| SysmonProofs.PublishedFailsafe | esp32p4_heli_fc/main/agents/sysmon_agent.c:368-400 | The published failsafe is the most severe one found (sensor failure, critical battery, RC lost, low battery), except that on an armed vehicle a lost ground link replaces it, whatever it is |
| SysmonProofs.LostLinkHidesSensorFailure | esp32p4_heli_fc/main/agents/sysmon_agent.c:568-577 | A run from start in which a sensor failure is published as a lost ground link |
| SysmonProofs.SwitchRules | esp32p4_heli_fc/main/agents/sysmon_agent.c:542-564 | With a fresh RC link and no serious failsafe a turn without a mode command publishes the switch's mode whatever mode was set before, unless that is LOITER without GPS |
| SysmonProofs.RcLossReturnsOrLands | esp32p4_heli_fc/main/agents/sysmon_agent.c:404-417 | An armed vehicle that loses its RC link and nothing worse publishes RTH with a fresh GPS and LAND without, unless it was returning or landing already or a command sets the mode |
| SysmonProofs.LoiterNeedsGps | esp32p4_heli_fc/main/agents/sysmon_agent.c:472-479 | A turn that begins armed and has no mode command never publishes LOITER with a stale GPS |
| SysmonProofs.TurnMidway | esp32p4_heli_fc/main/agents/sysmon_agent.c:259-565 | What holds after each section of a turn: flags are those of this turn's time, the failsafe is consistent with them, an armed vehicle has reacted |
| SysmonObjects.Monitor.DetectFailsafe | esp32p4_heli_fc/main/agents/sysmon_agent.c:368-400 | The assignments in order of severity give the model's failsafe |
| SysmonObjects.Monitor.ReactToFailsafe | esp32p4_heli_fc/main/agents/sysmon_agent.c:402-452 | The switch over the failsafe sets the model's mode |
| SysmonObjects.Monitor.FallBack | esp32p4_heli_fc/main/agents/sysmon_agent.c:454-482 | The fallback section sets the model's mode |
| SysmonObjects.Monitor.TimeLanding | esp32p4_heli_fc/main/agents/sysmon_agent.c:484-505 | The landing section updates timer and arm state as the model does |
| SysmonObjects.Monitor.ReadSwitches | esp32p4_heli_fc/main/agents/sysmon_agent.c:507-565 | The RC section updates arm state, edge memory and mode as the model does |
| SysmonObjects.Monitor.CheckLink | esp32p4_heli_fc/main/agents/sysmon_agent.c:567-578 | The ground-link section as the model |
| SysmonObjects.Monitor.HandleCommand | esp32p4_heli_fc/main/agents/sysmon_agent.c:583-625 | One command as the model; what it brings about is SysmonEffects.DisarmTakesEffect, ArmTakesEffect and LastModeDecides |
| SysmonObjects.Monitor.OneTurn | esp32p4_heli_fc/main/agents/sysmon_agent.c:258-838 | The whole loop body, with its inner loop over the command queue, is the model's turn |
| TxBudget.WindowBound | esp32p4_heli_fc/main/comm/mavlink_handler.c:348-378 | In every run after mavlink_handler_init, at whatever time, however the limit is set and however the 32-bit times wrap, window starts are at least 1000 ms of true time apart and a window of fewer than 2^32 packets carries at most 60 non-critical ones (60 more for each further 2^32) |
| TxBudget.IntervalBound | esp32p4_heli_fc/main/comm/mavlink_handler.c:348-378 | so any interval shorter than 1000 ms carries at most 120 non-critical packets |
| TxBudget.CriticalAlwaysSent | esp32p4_heli_fc/main/comm/mavlink_handler.c:358-376 | A critical packet that can be serialised always goes out |
| TxBudget.SendDecided | esp32p4_heli_fc/main/comm/mavlink_handler.c:340-378 | In every run, while the current window has carried fewer than 2^32 packets, the history decides: a packet is sent, in the current window or, when that is a second old by the wrapping clock, in a new one, exactly when it serialises and is critical (ids 0, 22, 77, 148) or not paused with fewer packets in its window than the limit |
| TxBudget.TelemetryFlows | esp32p4_heli_fc/main/comm/mavlink_handler.c:361-376 | so telemetry that serialises and is not paused always goes out while its window holds fewer than 30 packets |
| TxBudget.LimitFollows | esp32p4_heli_fc/main/comm/mavlink_handler.c:1074-1090 | The limit becomes a 500th of the reported throughput, kept within 30 and 60, at most every 2000 ms by the wrapping clock |
| TxBudget.RunInv | esp32p4_heli_fc/main/comm/mavlink_handler.c:325-378 | The invariant that ties the wrapped count and window start to the true history |
| TxBudget.Limiter.constructor | esp32p4_heli_fc/main/comm/mavlink_handler.c:1968-1970 | mavlink_handler_init begins the first window at its own time |
| TxBudget.Limiter.SendMessage | esp32p4_heli_fc/main/comm/mavlink_handler.c:348-378 | send_mavlink_msg on the static variables does the model's step, which TxBudget.SendDecided describes by the history |
| TxBudget.Limiter.UpdateLimit | esp32p4_heli_fc/main/comm/mavlink_handler.c:1076-1090 | update_mavlink_tx_budget likewise; the limit stays in 30..60 |
| Mmpkt.LaidOutIffNoWrap | framework/morselib/include/mmpkt.h:167-212 | A result of mmpkt_init_buf with both spaces given lays header, data and metadata out disjointly inside the buffer exactly when the rounded sizes do not add up to 2^32 |
| Mmpkt.InitBufFits | framework/morselib/include/mmpkt.h:167-212 | and without wrap-around it is not NULL exactly when they fit |
| Mmpkt.WholeLaidOutIffFits | framework/morselib/include/mmpkt.h:182-199 | With UINT32_MAX as the space at the end, for all sizes: a result that is not NULL is well laid out exactly when header, metadata and the space at the start, rounded up, fit the buffer |
| Mmpkt.WholeBufferFits | framework/morselib/include/mmpkt.h:186-193 | and when they fit it is NULL exactly when over INT32_MAX bytes are left for the data and no more than that are to stay free before it |
| Mmpkt.WholeBuffer | framework/morselib/include/mmpkt.h:182-194 | With no size over INT32_MAX it is not NULL exactly when the reserved space fits, well laid out, and takes all whole words there are |
| Mmpkt.WrapIsAccepted | framework/morselib/include/mmpkt.h:178-199 | Sizes that wrap are accepted with a start offset outside the buffer |
| Mmpkt.HugeMetadataIsAccepted | framework/morselib/include/mmpkt.h:184-199 | Metadata just over the signed limit is accepted in an empty buffer |
| Mmpkt.RoundUpExact | framework/morselib/include/mmpkt.h:33-35 | The rounding macro on 32-bit words gives the next multiple of 4, and 0 above the last one |
| Mmpkt.RunKeepsCapacity | framework/morselib/include/mmpkt.h:399-562 | In any run that passes its assertions, the space before the data, the data and the space after it add up to the buffer's length |
| Mmpkt.RunRefinesBytes | framework/morselib/include/mmpkt.h:399-562 | Any run of the operations that passes its assertions does to the data what it does to a byte sequence, where reserving room prepends or appends the bytes that happen to be there |
| Mmpkt.ReserveThenWrite | framework/morselib/include/mmpkt.h:386-409 | Reserving room and then filling it is copying in: what was there before leaves no trace |
| Mmpkt.RemoveUndoesPrepend | framework/morselib/include/mmpkt.h:399-426 | Removing from the start what was prepended restores the packet |
| Mmpkt.RemoveUndoesAppend | framework/morselib/include/mmpkt.h:441-466 | Removing from the end what was appended restores the packet |
| Mmpkt.PrependUndoesRemove | framework/morselib/include/mmpkt.h:503-562 | What was removed can be taken back; truncating is removing from the end |
| Mmpkt.AdjustMovesStart | framework/morselib/include/mmpkt.h:488-493 | For buffers below 2 GB and every 32-bit delta, mmpkt_adjust_start_offset passes its assertions exactly when there is no data and the shifted start lies in the buffer, and then the data starts there |
| Mmpkt.AdjustUndone | framework/morselib/include/mmpkt.h:488-493 | An adjustment followed by its opposite restores the packet |
| Mmpkt.Buffer.Reserve | framework/morselib/include/mmpkt.h:399-409 | mmpkt_prepend on start_offset, data_len and the buffer: the model's step, and the offset to write at |
| Mmpkt.Buffer.Extend | framework/morselib/include/mmpkt.h:441-451 | mmpkt_append likewise |
| Mmpkt.Buffer.DoPrependData | framework/morselib/include/mmpkt.h:422-426 | mmpkt_prepend_data: the model's step |
| Mmpkt.Buffer.DoAppendData | framework/morselib/include/mmpkt.h:462-466 | likewise |
| Mmpkt.Buffer.DoRemoveFromStart | framework/morselib/include/mmpkt.h:503-522 | likewise, with the offset of the removed bytes or NULL |
| Mmpkt.Buffer.DoRemoveFromEnd | framework/morselib/include/mmpkt.h:532-549 | likewise, with the offset of the removed bytes or NULL |
| Mmpkt.Buffer.DoTruncate | framework/morselib/include/mmpkt.h:558-562 | likewise |
| Mmpkt.Buffer.DoAdjustStart | framework/morselib/include/mmpkt.h:488-493 | likewise, with the unsigned wrap of the sum |
| MmCrc.Mmcrc16Xmodem | framework/src/mmutils/mmcrc.c:44-53 | The table-driven loop computes the bitwise CRC with polynomial 0x1021, for every start value and buffer |
| MmCrc.TableIs | framework/src/mmutils/mmcrc.c:12-35 | Each of the 256 table entries is the effect of its index byte |
| MmCrc.TableStep | framework/src/mmutils/mmcrc.c:48-51 | One table look-up is eight bit steps |
| MmCrc.CrcAppend | framework/src/mmutils/mmcrc.c:44-53 | The CRC of a concatenation is the CRC of the second part started from that of the first |
| MmCrc.SelfCheck | framework/src/mmutils/mmcrc.c:44-53 | A message followed by two bytes has CRC 0 exactly when they are its own CRC, high byte first |

## Left out

- Floating-point rounding, overflow and NaN: all arithmetic of the filter and the monitor is over `real`.
- The write in front of the local array at mod_camera_h264.c:304: only the sequence number that the line takes is modelled.
- Sockets, pacing delays and the choice of destination address: a packet is sent when it is appended to the list of datagrams.
- The message encoders, decoders and put/get helpers of the MAVLink codec: a message is its header fields and payload bytes.
- The definitions of the MAVLink messages are not part of the repository, so the per-message CRC seeds are the constants of mavlink_msg.c:22-32.
- The extended MAVLink codec of the flight controller is not part of this model.
- uORB topics other than one: topics share only the global mutex, whose steps the model has. Reads and writes by a thread are atomic and ordered as written; the memory model of the two cores is not modelled.
- orb_publish reads the `advertised` flag without a lock; the model reads it once, when the call begins.
- The RPC statistics counters: they are updated without a lock by several tasks and may lose counts.
- Allocation failures inside mbedtls bignum calls: the calls are modelled by their integer meaning and their documented refusals.
- Kdf.HmacPrfBits: does not model a bit length within 7 of 2^32, where the size_t rounding would wrap, because such a buffer does not fit the 32-bit address space.
- EcPoint: constant-time behaviour; only values are modelled.
- Sysmon: cell counting, the home position, parameter clamping, mission commands, status texts, telemetry forwarding, the magnetometer flag (it only affects texts) and the LED. A PARAM_SET gives the new parameters as they are after clamping.
- Thermal: resync delays and the 10-second log; a failed transfer and the end of a recording are the same.
- Mmpkt: the debug magic, the `next` pointer and the mmpkt_list functions; failed assertions end a run.
- TxBudget: serialisation itself; whether a packet can be serialised is an input.
- The mission upload path, the PID controller, mixer, altitude filter, autotune, SBUS and NMEA parsing, web pages and device drivers.
