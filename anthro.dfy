// The unit conversion of `add_anthro` in app/services/fit_service.py: the
// rider's measurements, taken in centimetres, become the millimetre
// lengths and fixed angles the drawing engine's rider is built from. The
// store call that follows is `MockDao.MockDb.AddUserAnthropometry`.
//
// Numbers are exact reals: the rounding of Python floats is not modelled.
module Anthro {

  /** The measurements the conversion reads, in centimetres. The lower leg
      is read from the input key "lowerleg". */
  datatype Measurements = Measurements(
    hip: real,
    height: real,
    lowerleg: real,
    footLength: real,
    torsoLength: real,
    upperarm: real,
    forearm: real)

  /** The converted dictionary, in millimetres and degrees. */
  datatype Converted = Converted(
    hip: real,
    hipJointOffset: real,
    lowerLeg: real,
    heelToAnkle: real,
    ankleToMetatarsal: real,
    heelToMetatarsal: real,
    toes: real,
    soleHight: real,
    torsoMax: real,
    torsoMid: real,
    torsoMin: real,
    torsoMidAngle: real,
    torsoMinAngle: real,
    upperarm: real,
    forearm: real,
    neckLen: real,
    headR: real)

  /** The dictionary `add_anthro` builds before storing it. */
  function AddAnthro(m: Measurements): (c: Converted)
    ensures c.soleHight == 45.0 && c.torsoMidAngle == 45.0 && c.torsoMinAngle == 10.0
  {
    Converted(
      hip := m.hip * 10.0,
      hipJointOffset := m.height * 0.38,
      lowerLeg := m.lowerleg * 10.0,
      heelToAnkle := m.footLength * 3.1,
      ankleToMetatarsal := m.footLength * 5.9,
      heelToMetatarsal := m.footLength * 6.7,
      toes := m.footLength * 2.5,
      soleHight := 45.0,
      torsoMax := m.torsoLength * 10.0,
      torsoMid := m.torsoLength * 9.8,
      torsoMin := m.torsoLength * 8.75,
      torsoMidAngle := 45.0,
      torsoMinAngle := 10.0,
      upperarm := m.upperarm * 10.0,
      forearm := m.forearm * 10.0,
      neckLen := m.height * 0.95,
      headR := m.height * 0.65)
  }

  /** The measurements read back from a converted dictionary. */
  function Restore(c: Converted): (m: Measurements)
  {
    Measurements(
      hip := c.hip / 10.0,
      height := c.hipJointOffset / 0.38,
      lowerleg := c.lowerLeg / 10.0,
      footLength := c.toes / 2.5,
      torsoLength := c.torsoMax / 10.0,
      upperarm := c.upperarm / 10.0,
      forearm := c.forearm / 10.0)
  }

  /** No measurement is lost: the input can be read back from the stored
      dictionary. */
  lemma RestoreAddAnthro(m: Measurements)
    ensures Restore(AddAnthro(m)) == m
  {
  }

  /** The straight lengths are the centimetre inputs times ten. */
  lemma CentimetresToMillimetres(m: Measurements)
    ensures var c := AddAnthro(m);
      c.hip == 10.0 * m.hip && c.lowerLeg == 10.0 * m.lowerleg && c.torsoMax == 10.0 * m.torsoLength &&
      c.upperarm == 10.0 * m.upperarm && c.forearm == 10.0 * m.forearm
  {
  }

  /** For a positive torso length the three torso lengths are strictly
      ordered: shortest at the most bent posture. */
  lemma TorsoOrdered(m: Measurements)
    requires m.torsoLength > 0.0
    ensures var c := AddAnthro(m); 0.0 < c.torsoMin < c.torsoMid < c.torsoMax
  {
  }

  /** For a positive foot length the heel, ankle and ball of the foot form a
      proper triangle: each side is shorter than the other two together. */
  lemma FootTriangle(m: Measurements)
    requires m.footLength > 0.0
    ensures var c := AddAnthro(m);
      c.heelToMetatarsal < c.heelToAnkle + c.ankleToMetatarsal &&
      c.ankleToMetatarsal < c.heelToAnkle + c.heelToMetatarsal &&
      c.heelToAnkle < c.ankleToMetatarsal + c.heelToMetatarsal &&
      2.8 * m.footLength < c.heelToMetatarsal
  {
  }

  /** The height feeds only the hip joint offset, the neck length and the
      head radius: two inputs that differ in height alone convert alike in
      every other entry. */
  lemma HeightFeedsThree(m: Measurements, h: real)
    ensures var c, d := AddAnthro(m), AddAnthro(m.(height := h));
      d == c.(hipJointOffset := h * 0.38, neckLen := h * 0.95, headR := h * 0.65)
  {
  }

  /** Each output depends on one input only: changing every input but the
      foot length leaves the foot entries alone. */
  lemma FootFeedsFour(m: Measurements, n: Measurements)
    requires n.footLength == m.footLength
    ensures var c, d := AddAnthro(m), AddAnthro(n);
      d.heelToAnkle == c.heelToAnkle && d.ankleToMetatarsal == c.ankleToMetatarsal &&
      d.heelToMetatarsal == c.heelToMetatarsal && d.toes == c.toes
  {
  }
}
